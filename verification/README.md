# braft in Dafny

A model of braft's Raft implementation and of the local machinery it stands on, with proofs of what they promise.

**The group.** `Protocol` is a transition system over nodes and every message ever sent. Messages are never removed, so they may be lost, delayed, reordered or repeated. A node keeps the log on its disk, a queue of disk operations that have not finished, its term and vote, its ballot box and the stage of a membership change; it may crash between any two operations of its disk queue, in the middle of an append or of a truncation, and in the middle of starting an election. `NodeSpec` says on values what each handler does. `Invariant`, `Completeness`, `Growth` and the `Steps...` modules carry the proof; `Safety` states what holds in every run: state machine safety, leader completeness, log matching, election safety, membership changes, and that committing every index below a granted one is safe, which a comment in `ballot_box.cpp` calls not well proved. `VoteWindow` adds the time in which a voter does not hold its mutex. `Progress` and `ChangeProgress` say what a run can always go on to do: elect, replicate, commit, apply, and change the group. Membership changes are part of it: quorums of two terms need not be quorums of one configuration, so election safety and leader completeness are proved together, by induction on the term, on whether every vote came before the election, and on the length of the prefix.

**The node.** `NodeImpls` is the same node as the code keeps it, fields changed in place over a real ballot box; each handler is proved to do what `NodeSpec` says, and `NodeChecks` proves that what a handler takes for granted when it starts holds in every run.

**Ballots and closures.** `Ballots`, `BallotBoxes`, `ClosureQueues` are the classes; `Pipeline` runs them together with elections and notices in any order. `FsmCallers` applies committed entries, `Replicators` keeps the window of one follower, `AppendEntriesCaches` holds requests that came too early.

**Leases.** `Leases` holds the two lease classes and the bounded heap, `LeaseSafety` a transition system with clocks that drift apart within the bound, in which a lease is read and renewed in two steps; `LeaseRenewal` says exactly when the second step comes too late.

**The local log.** `LogManagers` spreads one logical log over memory, a queue of disk operations and the storage; `ConfigurationManagers` indexes its configurations. `DiskQueues`, `DiskIds` and `LogManagerSpec` hold the invariants on values, `Evictions` says when the memory may forget, and `LogRefinement` ties them to the protocol.

**The storage.** `SegmentCodec` and `Segments` are one file, byte by byte. `SegmentLogStorages` is the segmented storage; it changes its directory by one file operation at a time and remembers every directory there was, so its contracts speak about every crash point. `SegmentRecovery` and `SegmentStart` are the restart, `SegmentTorn` puts files cut at any byte into the directory. `LogStorages` holds the deque storage it is compared with.

## What turned out false

- An entry replaced by one of a smaller term breaks the log manager: ids compare term first, so the entry counts as written before it is, and a run of calls ends in reading the entry it replaced (`LogManagers.SmallerTermIsLost`). Leaders do send such entries (`SmallerTerm.SmallerTermReplaces`). Reads stay right for good if and only if every appended id lies above all ids that count as written before it (`Evictions.AppendRightForever`, and `LogManagers.LogManager.AppendEntries` says the same of the manager).
- The disk id never goes back, so after such a replacement the last id that a node gives when it votes or asks for votes may be larger than its log's. That does no harm: `Protocol` lets it be the id of any log the node has had on disk, and every theorem about runs holds.
- After a restart on a log that starts behind 1, with the snapshot inside the log, the term of the entry right before the log is not known (`LogManagers.StartForgetful`); `LogManagers.LogManager.UnsafeGetTerm` says exactly when it is.
- `MemoryLogStorage` accepts a prefix index below its log and a suffix index behind it, and then its indices and entries no longer match; its batch append reports entries it has refused as appended.
- Damaged data is not an error when a segment is loaded (`SegmentCodec.DamagedData`).
- `SegmentLogStorage::reset` stores the new first index and then unlinks from the front. When that index does not lie behind the old log, a crash in between leaves a directory that refuses to start, has a hole, or shows discarded entries; `SegmentCrash.ResetCrash` says exactly when.
- `SegmentLogStorage::truncate_suffix` answers -1 on a storage without any file.
- A hole before the file in progress is only logged at start-up. No crash point of append or truncation leaves one.
- Merging commit notices publishes another applied id than processing them one by one, exactly when the smaller, earlier one runs into a failure (`FsmCallers.CommittedTwiceExactly`).
- The out-of-order cache is dropped only when storing is refused, and storing never refuses: an empty cache stays behind exactly when its first timer could not be started, and then a later check on the cache fails (`AppendEntriesCaches.CacheOwner.HandleOutOfOrder`).
- The time a lease counts from is vouched for by a majority if the leader is in its own configuration; for a leader outside it, if and only if a peer that the heap did not keep is as late as the last one kept (`Leases.VouchedExactly`, `Leases.NotVouchedForOutsider`). And it is only because the lease starts after an entry of the term is applied: a replicator stamps its start without an acknowledgement.
- A voter reads its last log id without the mutex and then compares only its term again. An entry that it takes and acknowledges in between can be committed on its word and missing from the log it votes for, and two nodes apply different entries at one index (`StaleVote.StaleVoteLosesEntry`; leader leases, off by default, would have to run out first). A vote is as good as one without the window if and only if it is not a new vote for a log that is behind what is on disk when it is given (`VoteWindow.UnnoticedExactly`), and with that comparison every theorem about runs holds (`VoteWindow.RecheckedIsRun`).
- `get_leader_lease_status` reads the lease without the mutex and renews later for whatever leadership there is by then, without looking at the epoch. A lease that was suspect in one leadership makes the lease of the next one valid before it has started (`Leases.RenewedTooSoon`), and another node can lead meanwhile (`LeaseRenewal.ThreeOvertaken`). That happens in a group if and only if a majority can form without the members that have acknowledged the leadership (`LeaseRenewal.OvertakenExactly`), hence never in groups of one or two. It does not happen when the renewal is for a leadership whose lease has started or the one that was read (`LeaseSafety.FencedRunIsTimely`).

## Model

| member | source | states |
|---|---|---|
| Safety.StateMachineSafety | src/braft/fsm_caller.cpp:263-319 | In every run, with crashes, lost, repeated and reordered messages and membership changes, no two nodes ever apply different entries at one index. |
| Safety.LaterLeadersComplete | src/braft/node.cpp:1935-1975 | Leader completeness along a run: what any node takes for committed is in the log of every leader of a later term, and of the same term from then on. |
| Completeness.LeaderCompleteness | src/braft/ballot_box.cpp:49-96 | The induction behind it: a prefix committed in term t, on the grants of one ballot, is in the election log of every later leader, although the configurations of the two terms may differ. |
| Safety.CommitMoves | src/braft/ballot_box.cpp:64-91 | Committing the skipped prefix is safe: whenever a leader moves its commit index to c, a quorum of the configuration of entry c (of both halves when joint) has the leader's whole log up to c on disk, in that and every later state, whatever the ballots below c had collected. |
| Safety.CommittedStaysOnDisk | src/braft/node.cpp:2319-2364 | What a node takes for committed lies in a log that a quorum of the configuration at its end keeps on disk for the rest of the run, at every crash point of its queue, inside an append or a truncation too. |
| Safety.QuorumHolds | src/braft/replicator.cpp:480-516 | Whatever log a granting peer may find after a crash, between two disk operations or in the middle of one, starts with the committed log. |
| Safety.OnlyAcksCommit | src/braft/node.cpp:1998-2004 | A leader's commit index moves only on an acknowledgement or on its own finished disk write. |
| Safety.CommitRecorded | src/braft/ballot_box.cpp:86-94 | Each move of a leader's commit index goes forward and rests on a recorded quorum. |
| Safety.LogMatching | src/braft/log_manager.cpp:334-405 | Two logs, at any two moments of a run, that agree on the term at an index agree on everything up to it. |
| Safety.AcceptedRequest | src/braft/node.cpp:2387-2573 | A request that passes the checks leaves the log holding the request behind the matched entry; a request the log already holds changes nothing, so late and repeated ones never shorten it; nothing committed, hence nothing applied, is cut. |
| StepsFollower.CommittedIsNotCut | src/braft/log_manager.cpp:307-332 | Where a follower's log parts from its leader's lies at or behind its commit and applied index. |
| StepsFollower.ResolveFacts | src/braft/log_manager.cpp:365-398 | Resolving a request: everything before the first conflict agrees with the leader, and the result is the leader's log up to the end of the request, or the old log when there is no conflict. |
| Safety.OneLeader | src/braft/node.cpp:1394-1460 | Election safety: whoever leads one term at any two moments of a run, restarts included, is the same node. |
| Completeness.ElectionSafety | src/braft/node.cpp:1681-1750 | Two elections of one term have the same winner although their configurations may differ and vote requests go out before term and vote are stored. |
| Safety.SecondLeaderUnreachable | src/braft/node.cpp:2440-2452 | The branch for a second leader of one term is never taken. |
| Safety.NextConfigurationIsNear | src/braft/node.cpp:3292-3325 | In every log every quorum of a configuration meets every quorum of the next one. |
| Safety.ConfigurationsCommitInOrder | src/braft/node.cpp:3202-3361 | A leader appends a configuration only after its previous one of that term, the one of its election included, is committed. |
| Quorum.ChangeIsNear | src/braft/configuration.h:273-286 | A change by at most one peer, and each half of a joint change, keeps old and new quorums meeting, for every group size. |
| Quorum.MajoritiesMeet | src/braft/ballot.cpp:24-46 | Majorities of two peer sets that differ in at most one peer share a peer. |
| Completeness.CommitsAgree | src/braft/ballot_box.cpp:49-96 | Any two committed logs of a history are prefixes of one another. |
| Safety.RunInv | src/braft/node.cpp:2176-2289 | The invariant holds in every state of every run and the history only grows. |
| Safety.StepPreserves | src/braft/node.cpp:1681-1750 | Each of the eighteen kinds of steps keeps the invariant. |
| StepsElection.ElectSelfStepOk | src/braft/node.cpp:1681-1750 | Starting an election keeps the invariant, even when the last id in the request is a larger one that the node has had on disk before. |
| StepsElection.ElectCrashStepOk | src/braft/node.cpp:1721-1749 | So does a crash after the vote requests went out and before term and vote were stored. |
| StepsElection.VoteReqStepOk | src/braft/node.cpp:2176-2289 | Voting keeps the invariant, at any time between the node's other steps: a vote goes to a log at least as up to date, compared term first, as what the voter has on disk when it votes; the id it compares with may be any larger one. |
| VoteWindow.RecheckedIsRun | src/braft/node.cpp:2225-2236 | The last id is read without the mutex and the vote given later, at any distance: if the request is compared again with what is on disk by then, every run with such windows is a run of the protocol, so all theorems about runs hold. |
| VoteWindow.RecheckedIsSafe | src/braft/node.cpp:2225-2261 | In such a run no two nodes apply different entries at one index. |
| VoteWindow.UnnoticedExactly | src/braft/node.cpp:2225-2268 | A vote with an old id does what the protocol does with some id not below the disk's, if and only if it is not a new vote for a log that is behind what is on disk by now. |
| StaleVote.StaleVoteLosesEntry | src/braft/node.cpp:2225-2261 | The code compares only the terms again. For any two terms t < u, three nodes: the leader of t commits and applies an entry with the voter's acknowledgement given inside the window, the voter then votes in u for a log without it, and the leader of u commits and applies another entry at the same index. |
| StepsElection.BecomeLeaderStepOk | src/braft/node.cpp:1935-1975 | So does winning: the first entry of the term repeats the configuration. |
| StepsLeader.ConfCommittedStepOk | src/braft/node.cpp:708-720 | So does moving a membership change to its next stage. |
| StepsFollower.AppendReqStepOk | src/braft/node.cpp:2387-2573 | So does handling an AppendEntries request, at any later time and any number of times, or putting it off after the term checks. |
| StepsAck.DiskStepStepOk | src/braft/log_manager.cpp:543-620 | So does a finished disk operation with its closure. |
| StepsAck.AppendRespStepOk | src/braft/replicator.cpp:480-516 | So does an acknowledgement, however late. |
| StepsNode.CrashStepOk | src/braft/log_manager.cpp:543-620 | So does a crash at any point of the disk queue, in the middle of an append or of a suffix truncation too. |
| StepsNode.RememberStepOk | src/braft/log_manager.cpp:801-810 | So does remembering the last id on disk for ever, as the disk id does after a replacement by a smaller term. |
| Witness.SomethingIsApplied | src/braft/node.cpp:1935-1975 | There is a run in which a leader commits and applies an entry, so the theorems about runs are not empty. |
| Progress.LearnsCommit | src/braft/node.cpp:2513-2573 | In every run a request that passes the checks teaches its follower: a heartbeat moves the committed index at once to exactly the smaller of the leader's and the matched index, entries do once they are on disk. |
| Progress.CatchUp | src/braft/replicator.cpp:641-714 | From every reachable state with a leader and a follower of no larger term whose logs match at an index, the run can go on so that the follower has the leader's entries behind it on disk, has acknowledged them, and knows what of them is committed. |
| Progress.QuorumCommits | src/braft/ballot_box.cpp:49-96 | From every reachable state a leader that reaches a quorum of the configuration of its last entry, with those already counted, can commit its whole log, whatever the followers have missed and whatever other ballots hold. |
| Progress.CanBeElected | src/braft/node.cpp:1681-1750 | From every reachable state a member whose log is not behind the disks of enough others to make a quorum with it can win the next term. |
| Progress.CanCommit | src/braft/node.cpp:1935-2004 | And it can then commit everything it has, in a group of one too. |
| ChangeProgress.CanApply | src/braft/node.cpp:2024-2079 | From every reachable state a leader that makes a quorum with the peers it reaches can have any list of tasks appended, committed and applied, in order, behind everything before them. |
| ChangeProgress.CanChange | src/braft/node.cpp:3202-3325 | From every reachable state a leader without a change in progress that makes a quorum of the new peers, and of the old ones when more than one peer changes, with those it reaches can carry the change through both stages: the new configuration alone is committed, the change is over, and the leader goes on if and only if it is part of it. |
| Progress.CanCrash | src/braft/log_manager.cpp:543-620 | From every reachable state a node may stop at any point of its disk queue, in the middle of an operation too, and comes back with its term, its vote and the log found there, and with nothing else. |
| NodeChecks.WinnerIsClean | src/braft/ballot_box.cpp:109-119 | In every run a node that is not leader has no ballots, no membership change in progress, and a commit index inside its log: the checks of a new leader hold. |
| NodeChecks.ClosuresAreTimely | src/braft/ballot_box.cpp:137-145 | In every run a follower's closure of the current term never meets a ballot box in use: the check on a late committed index holds. |
| NodeChecks.RequestsNameTheirTerm | src/braft/node.cpp:2468-2471 | In every run a request names a positive term for its previous entry unless that is index 0. |
| NodeChecks.StoredTermSuffices | src/braft/node.cpp:324-344 | In every run no log that a restart may find has a last term above the stored one: the correction of the term at start-up is never needed. |
| NodeImpls.NodeImpl.constructor | src/braft/node.cpp:293-347 | A node starts as the restarted follower of the protocol, with the stored term and vote unless the last term of its log is larger; the first start is the initial node. |
| NodeImpls.NodeImpl.StepDown | src/braft/node.cpp:1793-1875 | The node follows nobody, in the larger of the two terms, without a vote exactly when that is new; ballots, membership change and votes are gone, log and indices stay; a leader's waiting closures fail, all of them once; an election under way is over, so that answers to it are ignored. |
| NodeImpls.NodeImpl.CheckStepDown | src/braft/node.cpp:1898-1917 | Higher term, other role or unknown leader steps down; then the sender is the leader. |
| NodeImpls.NodeImpl.ElectSelf | src/braft/node.cpp:1681-1750 | Only a member runs; term and vote are stored; the vote request carries the last log id; the own vote counts at once exactly when no lease forbids it, and a group of one is then won. |
| NodeImpls.NodeImpl.GrantSelf | src/braft/node.cpp:3551-3569 | The own vote counts later, once, and only for the election it belongs to. |
| NodeImpls.NodeImpl.CountVotes | src/braft/node.cpp:1445-1453 | Counting votes makes a leader exactly when all votes counted are a quorum of the configuration, of both halves when joint; term and vote stay. |
| NodeImpls.NodeImpl.HandleRequestVoteRequest | src/braft/node.cpp:2176-2289 | A request that is heard raises the term to its own, whether or not the log is good enough, and then the node follows nobody; the vote is given exactly when the log is not behind the id that was read and none has been given in that term. A lease or a term that changed while the mutex was free leave everything as it is. Granted, rejected by lease, and disrupted are said exactly when they are so. |
| NodeImpls.NodeImpl.HandleRequestVoteResponse | src/braft/node.cpp:1394-1460 | Answers of another election or term change nothing, a higher term steps down, a grant of the last leader counts for two, and the counted ballot wins exactly on a quorum. |
| NodeImpls.NodeImpl.BecomeLeader | src/braft/node.cpp:1935-1975 | The winner opens its ballot box behind its log and appends its configuration, with one ballot of that configuration. |
| NodeImpls.NodeImpl.UnsafeApplyConfiguration | src/braft/node.cpp:2081-2107 | The ballot of a configuration entry is that configuration. |
| NodeImpls.NodeImpl.Apply | src/braft/node.cpp:2024-2079 | A leader appends exactly the tasks that expect its term, with one ballot and one waiting closure each, in order; exactly the closures of the other tasks fail, all of them when the node does not lead. |
| NodeImpls.NodeImpl.TakeTasks | src/braft/node.cpp:2051-2069 | The loop: one entry, one fresh ballot and one waiting closure per accepted task, in order; the closures of the others in order. |
| NodeImpls.DonesSplit | src/braft/node.cpp:2051-2069 | Every closure of a request is among the waiting or among the failed ones, as often as it came. |
| NodeImpls.TakenAt | src/braft/node.cpp:2051-2069 | Every task that is taken gets the next entry, with its own value and its own closure. |
| NodeImpls.NodeImpl.RegisterConfChange | src/braft/node.cpp:855-891 | Refused unless leader and idle; otherwise the change starts. |
| NodeImpls.NodeImpl.StartChange | src/braft/node.cpp:3202-3247 | The change counts the peers added and removed; with peers to add it waits for them, otherwise the next stage starts at once. |
| NodeImpls.NodeImpl.NextStage | src/braft/node.cpp:3292-3325 | The old peers stay beside the new ones in the appended configuration exactly when more than one peer changes; a joint stage is followed by the new configuration alone; a stable one ends the change, leaves the log alone, and the leader goes on exactly when it is one of the new peers. |
| NodeImpls.NodeImpl.OnCaughtUp | src/braft/node.cpp:3265-3290 | The last peer that catches up starts the next stage, with log and stage as above; another one only leaves the list; a failure ends the change. |
| NodeImpls.NodeImpl.OnConfigurationChangeDone | src/braft/node.cpp:708-720 | The change moves on by one stage as above: a leader of the group goes on, a removed one steps down. A notice of another term or of a former leader changes nothing. |
| NodeImpls.NodeImpl.HandleAppendEntriesRequest | src/braft/node.cpp:2387-2573 | The node changes as in the protocol, and the answer tells refused, busy, unmatched with its last index, put off, matched, or later. A matched heartbeat moves the committed index to the smaller of the leader's and the matched one, if that is larger; nothing else moves it here. |
| NodeImpls.NodeImpl.AppendAsFollower | src/braft/log_manager.cpp:334-447 | A request at or below the applied index skips the disk; otherwise a cut, if needed, and the entries are queued, and the configuration follows the log. |
| NodeImpls.NodeImpl.RunClosure | src/braft/node.cpp:2319-2364 | A follower answers only in its own term, and then takes over the committed index of the request if it is larger; a leader grants itself and commits as commit_at does. |
| NodeImpls.NodeImpl.OnDisk | src/braft/log_manager.cpp:543-620 | The first queued operation reaches the disk and its closure runs, with the same committed index. |
| NodeImpls.NodeImpl.CommitAt | src/braft/ballot_box.cpp:49-96 | The committed index becomes the largest one of the range that has a quorum of its own configuration with the new peer, and stays exactly when there is none. |
| Ballots.FindPeer | src/braft/ballot.h:54-67 | Whatever the hint, the position found is that of the peer, or the end when it is not listed. |
| Ballots.Ballot.constructor | src/braft/ballot.cpp:24-46 | A new ballot of a stable or joint configuration with nobody found. |
| Ballots.Ballot.Grant | src/braft/ballot.cpp:48-79 | A grant counts once in each list the peer is in, repeated and wrongly hinted grants included. |
| Ballots.Ballot.Granted | src/braft/ballot.h:44-44 | The counters reach zero exactly when the grants are a quorum of the configuration, of both when joint. |
| Ballots.MarkPeer | src/braft/ballot.cpp:48-79 | Marking a peer lowers the missing count by one the first time and by none after. |
| BallotBoxes.BallotBox.CommitAt | src/braft/ballot_box.cpp:49-96 | Return code, box, committed index and notice: exactly the largest index of the range with a quorum is committed and announced, none only when no ballot of the range has one. |
| BallotBoxes.BallotBox.GrantRange | src/braft/ballot_box.cpp:64-73 | The loop grants every ballot of the range and finds the last granted one, not the last granted in an unbroken run. |
| BallotBoxes.BallotBox.PopUntil | src/braft/ballot_box.cpp:86-91 | Ballots up to the committed one go, granted or not. |
| BallotBoxes.BallotBox.ClearPendingTasks | src/braft/ballot_box.cpp:98-107 | No ballots are left and every waiting closure fails once. |
| BallotBoxes.BallotBox.ResetPendingIndex | src/braft/ballot_box.cpp:109-119 | An unused box starts at the given index, closures aligned. |
| BallotBoxes.BallotBox.AppendPendingTask | src/braft/ballot_box.cpp:121-134 | One ballot and one closure more, at the same index. |
| BallotBoxes.BallotBox.SetLastCommittedIndex | src/braft/ballot_box.cpp:137-156 | A follower's committed index only grows; a box in use refuses. |
| BallotSpec.LastGrantedIsGranted | src/braft/ballot_box.cpp:64-73 | The last granted position is granted and none behind it in the range is. |
| BallotSpec.CommitAtCases | src/braft/ballot_box.cpp:49-96 | A call either changes nothing, or only grants, or commits up to a ballot that is granted with the new peer. |
| BallotSpec.CommitAtExactly | src/braft/ballot_box.cpp:49-96 | Told by the ballots before the call: the largest index between first and last whose ballot, with the new peer, is a quorum of its configuration is committed, 0 if and only if there is none; the ballots up to it go, those of the range behind it have the grant, the others stay. |
| ClosureQueues.ClosureQueue.Clear | src/braft/closure_queue.cpp:32-51 | Every waiting closure is failed once, in order. |
| ClosureQueues.ClosureQueue.ResetFirstIndex | src/braft/closure_queue.cpp:53-57 | Nothing waits for any index, and the next closure will wait for the given one. |
| ClosureQueues.ClosureQueue.AppendPendingClosure | src/braft/closure_queue.cpp:59-62 | The closure waits for the next index and everything else for what it waited for before; popping up to that index hands it out last. |
| ClosureQueues.ClosureQueue.PopClosureUntil | src/braft/closure_queue.cpp:64-85 | Exactly the closures up to the index leave, each at the place of its index, and the others wait for what they waited for; or -1 and no change exactly when the index has no place. |
| Pipeline.RunInv | src/braft/ballot_box.cpp:49-156 | Across every interleaving of append, grant, pop, clear and re-election, ballots and closures end at the same index. |
| Pipeline.ExactlyOnce | src/braft/closure_queue.cpp:32-85 | Every closure is delivered once with the entry of its own index, or failed once, or still waits, and never two of these. |
| Pipeline.ChecksHold | src/braft/fsm_caller.cpp:274-277 | A new leadership finds box and queue empty, a late committed index is below the ballots, and no notice exceeds the queue. |
| Pipeline.StaleNotice | src/braft/closure_queue.cpp:64-85 | A notice from before the current leadership takes no closure of it. |
| Pipeline.NoticeSettles | src/braft/fsm_caller.cpp:263-319 | In every run a notice settles every closure that waits for an index up to it: delivered with its own index, or failed when the state machine stopped at or before it; the closures behind it go on waiting. |
| PipelineWitness.SomethingIsDelivered | src/braft/closure_queue.cpp:64-85 | There is a run in which a task is appended, committed and applied, and its closure delivered with its entry. |
| FsmCallers.FsmCaller.Run | src/braft/fsm_caller.cpp:59-141 | Batched processing of any task queue has the effect of one task after the other. |
| FsmCallers.FsmCaller.DoCommitted | src/braft/fsm_caller.cpp:263-319 | Entries up to the notice, or to the first failure, are applied in order, each with its own closure, and the closures leave the queue; the published id is the notice's index with the term of the last entry applied. |
| FsmCallers.FsmCaller.ApplyAll | src/braft/fsm_caller.cpp:281-312 | The loop ends whatever the user consumes, skips no configuration entry, and stops exactly at the first failure. |
| FsmCallers.FsmCaller.OnApply | src/braft/raft.cpp:246-254 | The user never moves past an entry that is not a data entry. |
| FsmCallers.IteratorImpl.Next | src/braft/fsm_caller.cpp:569-588 | One entry further; an entry that cannot be read is an error. |
| FsmCallers.IteratorImpl.SetErrorAndRollback | src/braft/fsm_caller.cpp:597-617 | The given number of entries is taken back, the current data entry counted. |
| FsmCallers.TasksInOrder | src/braft/fsm_caller.cpp:59-141 | For every queue of tasks, commit notices in any order, each index after the last loaded snapshot is applied once, in increasing order. |
| FsmCallers.CommittedTwice | src/braft/fsm_caller.cpp:68-90 | Two notices in a row have the effect of the larger one. |
| FsmCallers.CommittedTwiceExactly | src/braft/fsm_caller.cpp:309-319 | The published applied id agrees too, if and only if the smaller, earlier notice does not run into a failure. |
| FsmCallers.CommittedExactly | src/braft/fsm_caller.cpp:263-319 | Told by the first index that fails: everything before it is applied, the caller is in error if and only if there is one, and without one the published id is that of the entry at the notice's index. |
| PipelineWitness.MergedNoticesDiffer | src/braft/fsm_caller.cpp:309-319 | At one entry on which the user fails: the notices for 1 and 2 leave the applied index at 1, merged they leave it at 2. |
| FsmCallers.MergeNotice | src/braft/fsm_caller.cpp:68-90 | Merging one more notice into a batch is processing it. |
| FsmCallers.LoadGoesForward | src/braft/fsm_caller.cpp:367-429 | A loaded snapshot of the same log never takes the state machine back. |
| Replicators.Replicator.constructor | src/braft/replicator.cpp:109-152 | A replicator starts idle behind the leader's log with nothing in flight. |
| Replicators.Replicator.SendEmptyEntries | src/braft/replicator.cpp:556-596 | A probe at the next index is the only request in flight; without a known previous term a snapshot is installed instead. |
| Replicators.Replicator.SendEntries | src/braft/replicator.cpp:641-714 | One batch more is in flight: from the next index on, as many entries as can be read and have room. A snapshot is installed exactly when the previous term is unknown, or nothing can be read because the log starts behind the next index. At the limits or while blocked nothing changes. The window stays a tiling. |
| Replicators.Replicator.PushBatch | src/braft/replicator.cpp:690-694 | One batch more, the flying counter grown by its size. |
| Replicators.Replicator.OnRpcReturned | src/braft/replicator.cpp:359-525 | A request no longer in flight is ignored; the range given to commit_at starts at the first unacknowledged index and ends at what the follower acknowledged; what was behind it stays in flight and the next batch is sent as above; a mismatch goes back and probes, a failure waits with nothing in flight. |
| Replicators.Replicator.IsValid | src/braft/replicator.cpp:379-398 | The check finds a request exactly when it is in flight. |
| Replicators.Replicator.PopAcknowledged | src/braft/replicator.cpp:510-516 | An acknowledgement drops its request and all before it, those behind it stay, and the window starts behind it. |
| Replicators.Replicator.StepBack | src/braft/replicator.cpp:442-463 | A mismatch goes back to right behind the follower's last index if that is lower, otherwise by one, never below 1. |
| Replicators.Replicator.ResetNextIndex | src/braft/replicator.cpp:1086-1095 | Nothing is in flight and the next index is the first unacknowledged one. |
| Replicators.Replicator.Block | src/braft/replicator.cpp:242-277 | A failed request waits with one timer; nothing is in flight. |
| Replicators.Replicator.WaitMoreEntries | src/braft/replicator.cpp:757-770 | Waiting for entries leaves the window alone; a waiter is registered exactly when there is room. |
| Replicators.Replicator.InstallSnapshot | src/braft/replicator.cpp:772-867 | A snapshot is installed only with nothing in flight: under way, to be retried, or in error. |
| Replicators.Replicator.OnInstallReturned | src/braft/replicator.cpp:869-932 | After a success the window starts behind the snapshot and sending goes on from there; after a failure it waits. |
| Replicators.Replicator.OnWake | src/braft/replicator.cpp:716-755 | A woken waiter sends the next batch as above; a cancelled one does nothing. |
| Replicators.Replicator.OnBlockTimedOut | src/braft/replicator.cpp:221-240 | The timer leaves the window alone and hands over to a second step. |
| Replicators.Replicator.ContinueAfterBlock | src/braft/replicator.cpp:716-755 | After a block the replicator probes again. |
| Replicators.TilesFacts | src/braft/replicator.h:168-170 | Batches of a tiling lie inside the window, do not overlap, and have different ids. |
| Replicators.TilesTail | src/braft/replicator.cpp:510-516 | Removing the first batch moves the lower end of the window by its size. |
| AppendEntriesCaches.AppendEntriesCache.Store | src/braft/node.cpp:3022-3079 | What stays: the requests that were there and the new one in index order, the new one alone when it overlaps any of them, no more than the limit with the largest indices leaving, and nothing when a first request gets no timer. Whatever was stored is in the cache or was handed out, once. |
| AppendEntriesCaches.KeptExactly | src/braft/node.cpp:3022-3079 | For every cache in order: the new request is alone if it overlaps another one, otherwise it is beside all others in order; above the limit the one with the largest index goes; a first request stays only with a timer. |
| AppendEntriesCaches.AppendEntriesCache.NeedClear | src/braft/node.cpp:3023-3048 | Looking at the two neighbours finds an overlap with any stored request. |
| AppendEntriesCaches.AppendEntriesCache.Evict | src/braft/node.cpp:3062-3077 | Above the limit the requests with the largest indices leave. |
| AppendEntriesCaches.AppendEntriesCache.ProcessRunableRpcs | src/braft/node.cpp:3081-3106 | Exactly the requests that can follow the local log leave, in index order. |
| AppendEntriesCaches.AppendEntriesCache.Clear | src/braft/node.cpp:3108-3121 | Everything leaves in the order of arrival. |
| AppendEntriesCaches.AppendEntriesCache.Erase | src/braft/node.cpp:3063-3074 | One request leaves map and queue together. |
| AppendEntriesCaches.AppendEntriesCache.TimedOut | src/braft/node.cpp:3184-3200 | A timer that is out of date, or started again for a younger request, changes nothing; otherwise everything is handed out in the order of arrival. |
| AppendEntriesCaches.CacheOwner.HandleOutOfOrder | src/braft/node.cpp:2908-2933 | A request is cached exactly when it leaves a gap; an empty cache stays behind exactly when its first timer could not be started, which is when the later check on it fails. |
| AppendEntriesCaches.CacheOwner.OnTimedOut | src/braft/node.cpp:2988-3006 | A timer of another cache changes nothing; a cache that its timer empties is dropped, with everything handed out. |
| AppendEntriesCaches.CacheOwner.CheckCache | src/braft/node.cpp:2935-2944 | What is released and what stays are the cache, in order; the released requests follow on from the log and from one another, the first that stays starts behind them, and the cache is dropped exactly when nothing stays. The check inside the cache holds whenever an existing cache is not empty, and that is kept. |
| AppendEntriesCaches.CacheOwner.ClearCache | src/braft/node.cpp:2946-2953 | All requests leave and the cache is gone. |
| LeaseSafety.LeaseIsSafe | src/braft/lease.cpp:45-82 | In every run with clocks within the drift bound and a fixed configuration, crashes in the middle of an election included, in which every renewal that makes a lease valid rests on members without whom no majority can form: while a lease is valid no majority has voted in a later term and nobody leads one. |
| LeaseSafety.OneValidLease | src/braft/node.cpp:3431-3475 | In such a run at most one node has a valid lease at any moment. |
| LeaseSafety.ValidLeaseExcludes | src/braft/lease.cpp:102-123 | The same for every state that keeps the invariant. |
| LeaseSafety.RunInv | src/braft/node.cpp:2199-2251 | Promises, votes and leaderships of every such run fit together. |
| LeaseSafety.StepPreserves | src/braft/node.cpp:605-608 | Each step keeps the invariant: a first start that may vote at once, a restart after a term that was never stored, a reading of the lease and a renewal at any later time among them. |
| LeaseSafety.FencedRunIsTimely | src/braft/node.cpp:3431-3475 | Every run in which a renewal happens in a leadership whose lease has started, or in the leadership that was read as suspect, is such a run: comparing the epoch again would be enough. |
| LeaseSafety.VouchedHolds | src/braft/node.cpp:3624-3648 | The time that the stamps vouch for is one since when enough members have acknowledged, once enough have acknowledged the leadership at all, although stamps begin with the leadership and not with an acknowledgement. |
| LeaseSafety.FreedPromise | src/braft/node.cpp:2199-2208 | A promise given up early, on the word that the leader of the node's own term has stepped down, breaks no promise to a leader that still leads. |
| LeaseSafety.CountedLeader | src/braft/node.cpp:3602-3608 | A lease that counts from a time since when enough members have acknowledged keeps the invariant. |
| LeaseSafety.LastLeaderGone | src/braft/node.cpp:3551-3569 | Counting one's own vote together with that of the last leader breaks no promise. |
| LeaseRenewal.OvertakenExactly | src/braft/node.cpp:3454-3475 | For every group, leader and set of members heard of: a run in which the lease is renewed then, all other renewals are as they should be, and another node leads a later term while the lease is valid, exists if and only if a majority can form without those members. |
| LeaseRenewal.RenewalExactly | src/braft/node.cpp:3454-3475 | For every state of such a run in which the members not heard of may vote before the lease is over: nobody ever leads a later term while it is valid, if and only if no majority can form without the members heard of. |
| LeaseRenewal.ThreeOvertaken | src/braft/node.cpp:3431-3475 | A run of three nodes: a lease that has not started is renewed on an old suspect reading and is valid while another node leads a later term. |
| LeaseRenewal.SmallGroups | src/braft/node.cpp:3624-3648 | In groups of one and two no majority can form without the leader. |
| LeaseRenewal.SomeLeaseIsValid | src/braft/lease.cpp:45-82 | In every group of two or more there is a run in which a leader has a valid lease. |
| Leases.LastLeaderActiveTimestamp | src/braft/node.cpp:3624-3648 | The bounded heap returns a time that enough peers have vouched for. |
| Leases.VouchedByMajority | src/braft/node.cpp:3624-3648 | For a leader in its configuration, of any size, it and the peers that acknowledged sends at or after that time form a majority. |
| Leases.VouchedIsLatest | src/braft/node.cpp:3624-3648 | For a later time they do if and only if the leader is the only member. |
| Leases.VouchedExactly | src/braft/node.cpp:3624-3648 | They form a majority if and only if the leader is in the configuration, or a peer that the heap did not keep is as late as the last one it kept. |
| Leases.NotVouchedForOutsider | src/braft/node.cpp:3624-3648 | A leader outside its configuration for whom they do not: three peers with different stamps. |
| Leases.LeaderLease.OnLeaderStart | src/braft/lease.cpp:32-37 | The lease is not ready at any time, and a start that is still on its way for any earlier epoch will change nothing. |
| Leases.LeaderLease.OnLeaderStop | src/braft/lease.cpp:39-43 | After that the lease is expired or disabled at every time. |
| Leases.LeaderLease.OnLeaseStart | src/braft/lease.cpp:45-51 | For the leadership that asked for it the lease is valid exactly up to one timeout after the stamp; for any other nothing changes. |
| Leases.LeaderLease.Renew | src/braft/lease.cpp:53-56 | A leader's lease is valid exactly up to one timeout after the new stamp, whatever it was before. |
| Leases.RenewedTooSoon | src/braft/lease.cpp:32-82 | The calls in the order of two threads: a suspect reading, the end of the leadership, a new one whose lease is not ready, the renewal, and the lease is valid. |
| Leases.LeaderLease.GetLeaseInfo | src/braft/lease.cpp:58-82 | Valid exactly within one election timeout of that time; term and epoch are given only then. |
| Leases.FollowerLease.Renew | src/braft/lease.cpp:102-105 | The promise holds from now for exactly the timeout and the drift, and so long the node has to wait with a vote. |
| Leases.FollowerLease.constructor | src/braft/lease.cpp:94-100 | A node that starts has to wait for the timeout and the drift from now, as it may have promised before. |
| Leases.FollowerLease.VotableTimeFromNow | src/braft/lease.cpp:111-123 | The wait is exactly how long the lease has still to run. |
| Leases.FollowerLease.Expire | src/braft/lease.cpp:139-141 | The node may vote at every time from the timeout and the drift on, counted from the zero of the clock. |
| LogStorages.MemoryLogStorage.GetEntry | src/braft/memory_log.cpp:30-42 | The entry of an index inside the log, and nothing outside it. |
| LogStorages.MemoryLogStorage.AppendEntry | src/braft/memory_log.cpp:58-72 | Refused with ERANGE exactly when it does not continue the log. |
| LogStorages.MemoryLogStorage.AppendEntries | src/braft/memory_log.cpp:74-84 | Exactly the entries that are the next one at their turn are taken; all are reported as appended, which is true if and only if they follow the log. |
| LogStorages.AcceptedOneMore | src/braft/memory_log.cpp:74-84 | An entry is taken exactly when it is the next one after those taken before it. |
| LogStorages.ChangedReads | src/braft/memory_log.cpp:86-150 | Index by index: truncating discards exactly the indices before or behind, appending adds exactly the new ones. |
| LogStorages.MemoryLogStorage.TruncatePrefix | src/braft/memory_log.cpp:86-109 | Exactly the entries before the index go, and beyond the log it starts empty there; an index below the log, and only that, leaves a storage whose indices and entries do not match. |
| LogStorages.MemoryLogStorage.TruncateSuffix | src/braft/memory_log.cpp:111-134 | Exactly the entries behind the index go, with the beginning of the log when that lies behind it; an index behind the log, and only that, leaves a storage whose last index has no entry. |
| LogStorages.MemoryLogStorage.Reset | src/braft/memory_log.cpp:136-156 | Refused for an index that is not positive; otherwise empty at the index. |
| LogManagers.LogManager.constructor | src/braft/log_manager.cpp:78-101 | Takes over any storage: the log is what it holds, nothing is evicted, the disk id is its last id, and neither snapshot nor virtual first entry are known. |
| LogManagers.LogManager.ValidIsRightForever | src/braft/log_manager.cpp:759-821 | In every sound state: the state is valid if and only if reads are right now and after everything that the disk thread, the state machine and snapshots may do. |
| LogManagers.LogManager.GetEntry | src/braft/log_manager.cpp:759-779 | What the memory or the storage holds at the index; in a valid state every index of the logical log reads back its entry, and no other index does. |
| LogManagers.LogManager.UnsafeGetTerm | src/braft/log_manager.cpp:703-728 | The term of every index of the log; the term of the entry right before the log if and only if the log starts at 1, or the virtual first entry or the snapshot lies there; 0 everywhere else. |
| LogManagerSpec.TermIsTrue | src/braft/log_manager.cpp:703-728 | The same on values, against the id of the entry that was dropped last. |
| LogManagerSpec.TermIsForgotten | src/braft/log_manager.cpp:85-101 | A loaded log that starts behind 1 and has its snapshot inside answers 0 for the index right before it. |
| LogManagers.StartForgetful | src/braft/log_manager.cpp:622-680 | Start-up on such a storage: the consistency check passes and the term right before the log is gone. |
| LogManagers.LogManager.GetLastLogId | src/braft/log_manager.cpp:190-196 | The last id of the log; without entries that of the snapshot, which is the entry dropped last. |
| LogManagers.LogManager.AppendEntries | src/braft/log_manager.cpp:407-447 | The logical log and the disk tasks after a leader's or a follower's entries, each outcome told apart; the manager stays valid, so that reads stay right for good, if and only if the added ids lie above all ids that count as written before them. |
| Evictions.AppendRightForever | src/braft/log_manager.cpp:125-146 | Reads stay right along every continuation of disk steps, published ids, applied ids and dropped fronts if and only if every added id lies above all ids that count as written or are queued. |
| Evictions.RightForever | src/braft/log_manager.cpp:801-821 | For any storage, queue and memory: reads stay right along every continuation if and only if whatever is not in memory, or may leave it by its id, is in the storage now and at every later stage. |
| Evictions.PlainRightForever | src/braft/log_manager.cpp:125-146 | For a log whose terms do not go back the same holds when nothing else happens than that the disk thread goes on and entries of the log are applied. |
| Evictions.AppendPlainRightForever | src/braft/log_manager.cpp:334-405 | So does the condition on the added ids. |
| DiskQueues.ReadableAppend | src/braft/log_manager.cpp:543-620 | An append keeps that condition if and only if its ids lie above all ids before them: right before it is written none of its entries is in the storage. |
| LogManagers.LogManager.CheckAndResolveConflict | src/braft/log_manager.cpp:334-405 | Gap, already applied, fatal, or the entries left to append once the conflict is cut. |
| LogManagers.LogManager.FindConflict | src/braft/log_manager.cpp:372-378 | How many entries the log holds with the same terms. |
| LogManagers.LogManager.PushEntries | src/braft/log_manager.cpp:407-447 | Entries go to memory and to the disk queue together; the manager stays valid if and only if their ids lie above all before them. |
| LogManagers.LogManager.AddConfigurations | src/braft/log_manager.cpp:429-436 | The configuration index gains exactly the configuration entries. |
| LogManagers.LogManager.UnsafeTruncateSuffix | src/braft/log_manager.cpp:307-332 | The log is cut behind the index and the cut queued with the term of the entry kept last; below the applied index it is fatal and nothing changes. |
| LogManagers.LogManager.TruncatePrefix | src/braft/log_manager.cpp:251-286 | Memory, index and queue drop the front; the virtual first id is that of the entry dropped last. |
| LogManagers.LogManager.SetSnapshot | src/braft/log_manager.cpp:622-680 | All three cases, an older snapshot ignored, one below a loaded log fatal; in each the virtual first id is the entry dropped last, and log, snapshot and configuration index stay consistent. |
| LogManagers.LogManager.ResetToSnapshot | src/braft/log_manager.cpp:288-305 | A log that disagrees with the snapshot starts afresh behind it. |
| LogManagers.LogManager.DropToSnapshot | src/braft/log_manager.cpp:656-661 | A log that ends before the snapshot goes as a whole; one that starts right behind it stays. |
| LogManagers.LogManager.DropToPrevious | src/braft/log_manager.cpp:662-673 | A snapshot within the log lets go what lies before the previous one, whose id is then the one dropped last. |
| LogManagers.LogManager.ClearBufferedLogs | src/braft/log_manager.cpp:682-688 | Everything before the last snapshot goes, and its id is the one dropped last. |
| LogManagers.LogManager.CheckConsistency | src/braft/log_manager.cpp:947-968 | The start-up check passes if and only if the log starts at 1 or has its snapshot. |
| LogManagerSpec.NewSnapshotIsNotBelow | src/braft/log_manager.cpp:656-661 | The case of a snapshot below the first index, marked FIXME, is unreachable once the log starts at 1 or has its snapshot. |
| LogManagers.LogManager.ClearMemoryLogs | src/braft/log_manager.cpp:125-146 | Memory loses exactly its entries from the front up to the first larger id, and a valid state stays valid. |
| LogManagers.LogManager.SetAppliedId | src/braft/log_manager.cpp:812-821 | Ids never go back; what leaves the memory can be read from the storage, as long as the state was valid. |
| LogManagers.LogManager.SetDiskId | src/braft/log_manager.cpp:801-810 | Ids never go back; what leaves the memory can be read from the storage, as long as the state was valid. |
| LogManagers.LogManager.Flush | src/braft/log_manager.cpp:501-519 | Collected appends written at once leave storage, queue and log in step; the id carried along is then the last one on disk, whatever it was. |
| LogManagers.LogManager.RunTask | src/braft/log_manager.cpp:543-620 | The next operation; a question for the last id is answered with the id of the last entry on disk, if the id carried along was that, which every operation keeps. |
| LogManagers.LogManager.StartBatch | src/braft/log_manager.cpp:543-553 | A batch carries the last id on disk along if and only if the published id is that. |
| LogManagers.LogManager.Take | src/braft/log_manager.cpp:520-531 | Collecting an append, flushing first when the batch is full. |
| LogManagers.LogManager.EndBatch | src/braft/log_manager.cpp:616-620 | Everything collected is written; the published id is the last one on disk if and only if it did not go back, or nothing can ask for it. |
| LogManagers.LogManager.AskLastLogId | src/braft/log_manager.cpp:197-205 | When the log ends with the snapshot its id is the answer, and it is the last id; otherwise the question is queued behind all operations before it. |
| LogManagers.LogManager.GetConfiguration | src/braft/log_manager.cpp:781-784 | The configuration at an index from the snapshot on is what replaying the log gives. |
| LogManagerSpec.AppendsAtOnce | src/braft/log_manager.cpp:486-541 | Writing collected appends at once is writing them one after the other. |
| LogManagerSpec.RunMany | src/braft/log_manager.cpp:543-620 | Running any number of queued operations keeps replay, memory and log in step. |
| LogManagerSpec.EvictLog | src/braft/log_manager.cpp:125-146 | Evicting what has been written leaves every index readable. |
| LogManagerSpec.ResolvedIs | src/braft/log_manager.cpp:365-398 | Cutting at the first conflict and appending the rest is the resolved log. |
| LogManagerSpec.ResolvedReads | src/braft/log_manager.cpp:365-398 | What can be read afterwards, index by index: up to the first conflict what was there, then the request and nothing behind it; without a conflict nothing changes. |
| LogManagerSpec.OutcomeExactly | src/braft/log_manager.cpp:334-405 | A gap, nothing new, a conflict with what is applied, or appended: each exactly under its condition on indices and terms. |
| LogManagers.SmallerTermIsLost | src/braft/log_manager.cpp:125-146 | A run of calls: an entry of term 2 is written, one of term 1 replaces it and is applied, and reading its index gives the old entry. |
| SmallerTerm.SmallerTermReplaces | src/braft/node.cpp:2387-2573 | A run of three nodes in which a leader makes a follower replace an entry of term 3 by one of term 2, so the hypothesis of the log manager is not something the protocol promises. |
| LogRefinement.ResolvedIsResolve | src/braft/log_manager.cpp:334-405 | Without compaction the log manager resolves a request as the node of the protocol does. |
| LogRefinement.ExtendedIsLeaderAppend | src/braft/log_manager.cpp:407-447 | And appends a leader's entries as it does. |
| ConfigurationManagers.ConfigurationManager.Add | src/braft/configuration_manager.cpp:21-31 | Refused exactly when not behind the last entry. |
| ConfigurationManagers.ConfigurationManager.TruncatePrefix | src/braft/configuration_manager.cpp:33-38 | Exactly the entries below the index go. |
| ConfigurationManagers.ConfigurationManager.TruncateSuffix | src/braft/configuration_manager.cpp:40-45 | Exactly the entries above the index go. |
| ConfigurationManagers.ConfigurationManager.SetSnapshot | src/braft/configuration_manager.cpp:47-50 | The snapshot's configuration is in force where no listed one is; nowhere else does anything change. |
| ConfigurationManagers.ConfigurationManager.Get | src/braft/configuration_manager.cpp:52-71 | The last entry up to the index, else the snapshot's. |
| ConfigurationManagers.ConfigurationManager.LastConfiguration | src/braft/configuration_manager.cpp:73-78 | The newest configuration known, the snapshot's only when the log has none. |
| ConfigurationManagers.CountIsPrefix | src/braft/configuration_manager.cpp:33-45 | Counting below an index is counting in the part of the log below it. |
| ConfigurationManagers.LookupIsReplay | src/braft/configuration_manager.cpp:52-71 | For every index from the snapshot on the answer is what replaying the log to that index gives. |
| SegmentCodec.RoundTrip | src/braft/log.cpp:379-447 | An entry written anywhere in a file is read back if and only if its data is shorter than 2^32 bytes, whatever the checksum functions are. |
| SegmentCodec.HeaderReadBack | src/braft/log.cpp:174-232 | Every header field is read back, the length modulo 2^32. |
| SegmentCodec.UnpackPack | src/braft/log.cpp:379-447 | Packing to a number of bytes and back is the remainder. |
| SegmentCodec.TornTail | src/braft/log.cpp:259-377 | For every byte prefix of a file, loading finds exactly the entries wholly inside it, their offsets and terms, and the end of the last one. |
| SegmentCodec.TailUnreadable | src/braft/log.cpp:174-232 | The entry that the cut goes through is never taken for one. |
| Segments.Segment.Append | src/braft/log.cpp:379-447 | EINVAL on a closed segment, ERANGE on another index, otherwise one entry more in file and index. |
| Segments.Segment.GetMeta | src/braft/log.cpp:234-257 | Offset, length and term of the entry at an index. |
| Segments.Segment.LoadEntry | src/braft/log.cpp:174-232 | Two reads, the first of the hinted size: the result does not depend on the hint, unless the first read alone runs beyond the file. |
| Segments.Segment.Get | src/braft/log.cpp:469-526 | What was appended at the index. |
| Segments.Segment.GetTerm | src/braft/log.cpp:528-534 | Its term, 0 outside. |
| Segments.Segment.Truncate | src/braft/log.cpp:625-680 | Exactly the entries up to the index stay; a cut closed segment is open. |
| Segments.Segment.Load | src/braft/log.cpp:259-377 | The index is rebuilt and the file cut behind the last whole entry; a damaged header, a configuration that cannot be parsed, or a closed file that does not hold what its name says is an error. |
| SegmentCodec.DamagedData | src/braft/log.cpp:305-337 | Damaged data is no error at load: of a configuration it ends the loading, and everything from it on is cut; of any other entry nothing is noticed, and only reading that entry fails. |
| Segments.Recover | src/braft/log.cpp:259-377 | After a crash at any byte, loading the open segment gives a valid segment of exactly the whole entries. |
| SegmentTorn.TornFile | src/braft/log.cpp:259-377 | Loading the bytes of a file cut anywhere finds the entries wholly inside and cuts the file to exactly their bytes. |
| SegmentTorn.TornDirectory | src/braft/log.cpp:999-1149 | A restart on a directory whose open file is cut at any byte succeeds and shows the log cut short, losing nothing before the entry that the cut has hit. |
| SegmentTorn.TornAppend | src/braft/log.cpp:738-788 | A crash in the middle of writing an entry leaves a directory that recovers to the log with it, when all its bytes are there, or without it. |
| SegmentLogStorages.SegmentLogStorage.GetSegment | src/braft/log.cpp:1230-1258 | Lookup finds the segment that holds the index, exactly for the indices of the log. |
| SegmentLogStorages.SegmentLogStorage.GetEntry | src/braft/log.cpp:807-813 | The entry of an index inside the log, and nothing outside it. |
| SegmentLogStorages.SegmentLogStorage.GetTerm | src/braft/log.cpp:815-821 | Its term, 0 outside. |
| SegmentLogStorages.SegmentLogStorage.OpenSegment | src/braft/log.cpp:1192-1228 | A segment is closed and a new one opened exactly when it is over the size limit, one is created when there is none; that changes nothing that can be seen, now or after a crash in between. |
| SegmentLogStorages.SegmentLogStorage.AppendEntries | src/braft/log.cpp:738-788 | Exactly the entries before the first fault or gap are appended; every directory on the way recovers to the old log and some of the new entries. |
| SegmentLogStorages.SegmentLogStorage.PopSegments | src/braft/log.cpp:823-852 | Exactly the segments before the index go; the check on the open segment holds. |
| SegmentLogStorages.SegmentLogStorage.TruncatePrefix | src/braft/log.cpp:854-878 | The log of the deque storage, and every directory on the way already recovers to it. |
| SegmentLogStorages.SegmentLogStorage.PopSegmentsFromBack | src/braft/log.cpp:880-917 | Exactly the segments that start behind the index go, from the back. |
| SegmentLogStorages.SegmentLogStorage.TruncateSegment | src/braft/log.cpp:625-680 | The last segment is renamed, then cut, and both directories recover to a cut of the log. |
| SegmentLogStorages.SegmentLogStorage.TruncateSuffix | src/braft/log.cpp:919-964 | The log of the deque storage; stopped after any unlink, rename or ftruncate, a restart shows a contiguous log cut no lower than the index kept; -1 exactly for a storage without files. |
| SegmentLogStorages.SegmentLogStorage.Reset | src/braft/log.cpp:966-997 | The log of the deque storage; every crash point recovers to it if and only if all files lie before the new first index. |
| SegmentCrash.ResetCrash | src/braft/log.cpp:966-997 | What a restart makes of a reset cut short: the reset log exactly when every file left lies before the new first index; otherwise it refuses to start, has a hole, or shows discarded entries. |
| SegmentCrash.ResetSteps | src/braft/log.cpp:966-997 | All crash points of a reset are safe if and only if the new first index lies behind the old log. |
| SegmentCrash.BackTrail | src/braft/log.cpp:919-964 | Unlinking from the back: each directory recovers to the log cut behind some index. |
| SegmentCrash.FrontTrail | src/braft/log.cpp:854-878 | Unlinking stale segments from the front shows the same log all the way. |
| SegmentSuffix.SuffixUnlinks | src/braft/log.cpp:919-964 | The unlink steps of a suffix truncation, in every case of open and closed segments. |
| SegmentSuffix.Reopened | src/braft/log.cpp:638-657 | A closed segment renamed but not yet cut still recovers to a cut of the log. |
| SegmentRecovery.RecoverCover | src/braft/log.cpp:999-1149 | A restart on any gap-free cover succeeds and shows what the cover holds from the stored first index on. |
| SegmentStart.ListSegments | src/braft/log.cpp:1053-1090 | The check loop keeps the files from the stored first index on, and refuses holes and bad names. |
| SegmentRecovery.ListedExactly | src/braft/log.cpp:1053-1090 | For every list of files: those from the first one on that does not lie before the stored first index are kept, and start-up is refused if and only if that one starts behind it, or a name is wrong or a file missing among them. |
| SegmentStart.LoadSegments | src/braft/log.cpp:1108-1149 | First and last index, and the open segment if it still counts. |
| SegmentStart.Init | src/braft/log.cpp:999-1149 | Start-up as a whole; two files in progress are refused. |
| SegmentStart.RunBoth | src/braft/memory_log.cpp:30-156 | For every sequence of operations, segmented and deque storage have the same first and last index and the same answer for every index. |
| SegmentImage.CutBackOk | src/braft/log.cpp:880-964 | Cutting the back keeps the segments an ordered, gap-free cover. |
| SegmentImage.DropFrontOk | src/braft/log.cpp:823-878 | So does dropping the front. |

## Left out

- The window of a candidate between raising its term and asking for votes (node.cpp:1721-1729): reading the last log id and asking are one step. Only a leader of the same term could have entries taken in between, and then the node is a candidate no more. The window of a voter is the subject of `VoteWindow`.
- Meta storage errors: term and vote are stored, or the node crashes.
- Compaction and snapshots across nodes: the logs of `Protocol` start at index 1; snapshots are modelled inside one node by `LogManagers`, `FsmCallers` and `Replicators`.
- NodeImpls.NodeImpl.StepDown: leases, replicators, timers, the out-of-order cache and a snapshot being installed are stopped elsewhere and not part of the node here.
- NodeImpls.NodeImpl.ElectSelf: reading the last log id and storing the vote are one step.
- NodeImpls.NodeImpl.HandleRequestVoteRequest: whether a lease forbids the vote is a parameter, so is the voided lease of a leader that stepped down, which `LeaseSafety` models.
- NodeImpls.NodeImpl.HandleRequestVoteResponse: peers that refused because of a lease and are asked again are not kept.
- Progress.CanCommit: says that a run can go on this way, not that it must; timeouts and fairness are not modelled, and `ChangeProgress` is of the same kind.
- Leases inside `Protocol`: they only withhold votes there; `LeaseSafety` has them, with one configuration that contains the leader and at most one leader per term given.
- Pre-vote, leadership transfer and the retry on peers that refused because of a lease: they only decide when an election starts; a transferring leader counts as a leader.
- The version of a catch-up context: the stage stands for it.
- A read of a term that has gone wrong as `LogManagers.SmallerTermIsLost` shows: it concerns entries that have left the memory, which are applied, so in `Protocol` it can only refuse a request, which is the choice not to take it, or stop the process, which is a crash.
- Reading a batch for a follower is one step of the leader; the replicator's pieces are in `Replicators`.
- Changes by `reset_peers`, readonly mode, witnesses and bootstrapping; all nodes start with the same configuration and term 1.
- RPC, threads, timers, reference counts, metrics and status pages; a timer appears as the event it raises.
- FsmCallers.FsmCaller.OnApply: the user that fails takes back the entry it fails on and no earlier one; `FsmCallers.IteratorImpl.SetErrorAndRollback` covers any number.
- FsmCallers.FsmCaller.Run: the closure queue does not grow while one batch is processed, and whether the user fails depends on the entry only.
- Replicators.Replicator.OnRpcReturned: heartbeats and catch-up waiting are not modelled, and starting a timer succeeds.
- LeaseSafety.LeaseIsSafe: leases are on, timeouts are not changed while running, a witness's double timeout is not modelled, and a transfer of leadership, which stops and restarts the lease (node.cpp:1181 and 1258), is not either.
- LeaseRenewal.RenewalExactly: in states where a member not heard of cannot vote in time, because it has heard of another leader or has just started, the renewal may do no harm all the same; a leader cannot know that.
- Evictions.RightForever: the disk thread may publish any id that counts as written, the largest one of a batch too; the code publishes the last one of a batch, and where a batch ends is open. Its continuations may also drop any front and publish any applied id that does not go back; `Evictions.PlainRightForever` does without, for logs whose terms do not go back.
- LogManagers.LogManager.SetSnapshot: a snapshot inside a log that agrees with it carries the configuration the log gives at its index, one right before the log is the entry dropped there, and applied and snapshot ids are ordered alike by term and by index.
- LogManagers.LogManager.GetEntry: storage errors are not modelled.
- Waiters for new entries of the log manager and its flushing of the closure metrics.
- Segments.Segment.Append: writing succeeds; a failed write that leaves bytes behind is not modelled.
- SegmentLogStorages.SegmentLogStorage.OpenSegment: a file operation that fails leaves nothing behind; the revert after a failed creation of the next segment, which keeps a closed segment in the open slot, is not modelled.
- SegmentLogStorages.SegmentLogStorage.AppendEntries: segments are values there and its directories hold whole entries; a directory with a torn entry is the subject of `SegmentTorn.TornAppend`.
- SegmentCodec.DamagedData: the damage is one that the checksum tells; headers are intact.
- SegmentLogStorages.SegmentLogStorage.TruncateSuffix: unlink, rename and ftruncate succeed and are atomic; power loss that loses unsynced data of a closed file is not modelled.
- Parsing of configuration entries is a predicate on bytes, and the flag that tolerates corrupt files is off.
- Files of a directory without stored first index are deleted at start-up; that case is not part of the model.
- leveldb meta storage, snapshot files and their copying between nodes.
