# Replicated proxy: models and proofs

A Dafny 4.11 model of a state-machine-replication system: a leader-based
replication protocol inside one view, the election that chooses the leader, the
intrusive hash table the proxy keeps its connections in, the proxy that replays
delivered requests, and a few algorithms of the bundled web server. Everything is
checked with `dafny verify dfyconfig.toml`.

## What is modelled

**Replication in one view.** `ConsensusNode` gives every handler of the consensus
component as a function on values, `ConsensusComp.Component` is the component
itself (its fields, its loops) and each of its methods is proved to do what the
function says. `ReplicationCluster` puts the nodes on a network that loses,
duplicates and reorders: a step takes any packet ever sent, and `store_record` may
fail at any step. The handlers ask for nothing but what the source asserts: they also
cover marks in two views and the boundary record between them, though what is proved
of runs stays inside one view. `ReplicationInvariant` shows that every step keeps one invariant
over bitmaps, databases, packets in flight and marks; `ReplicationSafety` draws the
conclusions over whole runs, `ReplicationHistory` says where requests come from and what each
message does to marks and records; `ConsensusBoundary` is about executing over the end of a view;
`GapRepair` and `GapRepairRuns` are about a follower
asking for what it lacks, when that helps and when it does not. `Recovery` and
`Convergence` say what can still bring all nodes to the leader's log from any reachable
state.

**Leader election.** `ElectionNode` gives the handlers of one election instance,
with three switches (`Fixes`). With all switches off it is the code as written.
`ElectionMod.LeleMod` is the module of one node with its two tables as arrays.
The code as written does not reach agreement. Three places need a repair:

| repair | place | what the code does there |
|---|---|---|
| `keepContent` | src/replica-sys/replica.c, line 878 | a PREPARE overwrites the accepted content with the -1 it carries |
| `ownAcceptor` | src/replica-sys/replica.c, lines 789 and 790 | the proposer's own vote goes into its learner table without passing its own acceptor |
| `oncePerPnum` | src/replica-sys/replica.c, lines 841 to 843 | each later PREPARE_ACK enters phase two again, possibly with another value |

`ElectionRepairs.AgreementNeedsTheRepairs` says that agreement holds in every run
of every cluster if and only if all three repairs are applied; the other direction
is three runs of a cluster of three nodes that elect two leaders, one for each
missing repair. Every other guard is as coded. `ElectionHistory` and `ElectionProgress` are about
every variant, the code as written among them: who is elected has proposed and is announced, and an
election can always still end.

**Hash table.** `HashSort` and `HashChain` are about the heap: handles with their
four links, relinked in place. `HashTable.Table` is the table; `Valid` is what
HASH_FSCK checks (and `Fsck` is HASH_FSCK, proved never to complain), that each item
sits in the bucket its hash value selects, and that there are 2^log2 buckets. The
hash function is any function of the key.

**Proxy.** `ProxyReplay` is the walk over record numbers that executes what was
delivered, with the two threads interleaved one loop turn at a time. `Framing` is
the read loop shared by the proxy and the replica, in the arithmetic of each.
`ConnectionKeys` is `gen_key`.

**Web server.** `GlobPattern` (URI patterns), `Digest` (MD5 and SHA-1 around their
block transforms), `SocketQueue` (the accepted-socket queue) and `UrlCodec`.

## What the proofs found

- Agreement of the election fails as coded, in three independent ways (above).
- `match_prefix` returns more than its callers use: on a pattern without `|` it is
  always the *longest* matching prefix.
- The replay executes exactly the delivered records if and only if no record is
  stored where it looks in vain (`ProxyReplay.ReplayIsFaithful`): behind the last
  delivery of a view that was left, or at the first request of a view in which
  nothing was delivered. These are the records update_view deletes when it closes a view
  (`ProxyReplay.ProbesAreDeleted`); it ignores whether the deletion succeeded. A record
  stored there, never delivered and not deleted is executed (`ProxyReplay.UndeliveredIsExecuted`):
  when the deletion fails, or comes after the proxy has walked on, or when the election closes the
  view with another last request.
- The proxy's loop moves forward to its end if and only if no record is missing in the last
  view (number 2^32 - 1), from where it enters it up to the highest announced. Such a record
  wraps `cur_rec` around to record 1, again and again unless the walk from there misses none
  (`ProxyReplay.LoopEnds`, `ProxyReplay.EndlessReplay`).
- Both read loops add the size of the header to the announced size in 64 bits, and the
  replica's holds the announced size in an int. They hand on the announced messages if and only
  if every header they meet fits (`Framing.CodedIsMeant`). A size of 2^64 - 16 makes the sum 0 and
  the loop stand still (`Framing.StuckHeader`); one of 2^32 reads as 0 in the replica.
- Connection identifiers repeat exactly when a node accepts 2^16 + 1 connections
  within one second (`ConnectionKeys.KeysDistinct`).
- A FORCE_EXEC brings a follower up to the leader if and only if the leader's mark is
  news to it or it lacks nothing (`GapRepair.FollowerCatchesUp`). When the answers to its
  requests are lost, the follower has the mark and not the record: from then on every
  FORCE_EXEC with that mark asks for nothing. `GapRepairRuns.FollowerMayStayBehind` is a
  run of three nodes in which this goes on for as long as one likes. What helps is one more
  request: with it every reachable state can recover, whatever was lost, and without it
  exactly those in which a record is still uncommitted or no follower is so placed
  (`Convergence.NoDeadEnd`).
- A group of one never ends its election as coded, because its own vote is not counted
  (`ElectionProgress.ElectionCanEnd`); every other group always can.
- After crossing a view boundary the leader's marks are one ahead of what it has executed, and the
  record it stopped at is skipped (`ConsensusBoundary.LeaderCrosses`). As consensus_update_role resets
  all marks, no run of one view comes to that.
- Where an escape does not fit, url_encode steps over a byte of its buffer without writing it, so
  that the result holds what was there before (`UrlCodec.EncodedCut`).
- SHA1Update copies outside its block exactly when the bytes already in the block and the
  length passed reach 2^32 together, because it adds them in 32 bits (`Digest.Sha1.Update`);
  one byte and then 2^32 - 1 more is such an input (`Digest.WrappingLength`).

## Model

| member | source | states |
|---|---|---|
| Bitmap.UpdateRecordMembers | src/consensus/consensus.c:298-302 | recording an acknowledgement adds that one node to the set of recorded nodes |
| Bitmap.PopCountIsCardinality | src/consensus/consensus.c:304-311 | the population count the quorum test uses is the number of recorded nodes |
| Bitmap.QuorumIsMajority | src/consensus/consensus.c:304-311 | the quorum test succeeds if and only if more than half of the group is recorded |
| ViewStamps.CompIsKeyOrder | src/util/common-structure.c:21-50 | the comparison of stamps is that of their record numbers, across views too, and different stamps have different numbers |
| ConsensusComp.Component.LeaderTryToExecute | src/consensus/consensus.c:584-640 | the loop over records changes the component exactly as the specification function says |
| ConsensusComp.Component.TryToExecute | src/consensus/consensus.c:642-718 | the same for executing with its requests for absent records, in order |
| ConsensusComp.Component.LeaderHandleSubmitReq | src/consensus/consensus.c:243-284 | a request is stored under the next stamp and broadcast; if storing fails no stamp is consumed and the error is returned |
| ConsensusComp.Component.HandleAcceptReq | src/consensus/consensus.c:313-382 | marks, record, acknowledgement and execution on an ACCEPT_REQ; no acknowledgement without a stored record |
| ConsensusComp.Component.HandleAcceptAck | src/consensus/consensus.c:383-413 | an acknowledgement is recorded unless late, unknown, not stored, or received by a follower; then execution |
| ConsensusComp.Component.HandleMissingReq | src/consensus/consensus.c:414-433 | a held record is sent to the asking node only |
| ConsensusComp.Component.HandleMissingAck | src/consensus/consensus.c:434-467 | an answer fills a gap once; a committed or present record is left alone |
| ConsensusComp.Component.HandleForceExec | src/consensus/consensus.c:468-481 | only the leader's higher mark is taken, and then execution |
| ConsensusComp.Component.MakeProgress | src/consensus/consensus.c:738-776 | every uncommitted record without quorum is sent again, then FORCE_EXEC |
| ConsensusComp.Component.HandleMsg | src/consensus/consensus.c:95-126 | dispatch of the six message types |
| ConsensusExec.LeaderAdvances | src/consensus/consensus.c:584-640 | the leader's marks move over exactly the longest prefix of records that more than half of the group is recorded to hold, and everything in it is delivered in order |
| ConsensusExec.FollowerExecutes | src/consensus/consensus.c:642-718 | a follower asks once for every absent record in (committed, to-commit], in order, and delivers up to the first absent one |
| ConsensusBoundary.FollowerCrosses | src/consensus/consensus.c:660-717 | a follower with its marks in two views asks for the boundary record alone if it lacks it; otherwise it delivers up to the first absent record before the boundary, asks for every absent one, and enters the next view if and only if none was |
| ConsensusBoundary.LeaderCrosses | src/consensus/consensus.c:595-639 | a leader that crosses a boundary executes from record 0 on, so that its marks are one ahead, and the record it stops at is skipped the next time |
| ReplicationInvariant.FollowerHandles | src/consensus/consensus.c:313-481 | whatever packet a follower handles, stored or not, its state stays a part of the leader's log and it acknowledges only what it holds |
| ReplicationInvariant.LeaderSubmits | src/consensus/consensus.c:243-284 | accepting a request appends it to the log and changes nothing before it |
| ReplicationInvariant.LeaderRecordsAck | src/consensus/consensus.c:383-411 | an acknowledgement always meets its record, sets at most its sender's bit, and what the leader then executes keeps its log and its quorum-complete prefix |
| ReplicationInvariant.QuorumIsMonotone | src/consensus/consensus.c:298-311 | a quorum once reached is never lost by recording another node |
| ReplicationInvariant.LeaderProgresses | src/consensus/consensus.c:738-776 | resending finds every record it reads, and sends only what is in the log |
| ReplicationInvariant.StepKeepsInv | src/consensus/consensus.c:95-776 | every step of every node keeps the cluster invariant, under loss, duplication, reordering and failing stores |
| ReplicationSafety.NothingIsOutsideTheModel | src/consensus/consensus.c:584-640 | in every reachable state no assertion of the source fails, whatever packet, request or timer comes: the leader finds every record it looks for |
| ReplicationSafety.StepRefinesLog | src/consensus/consensus.c:243-479 | every step of the cluster is a step of one append-only log from which nodes deliver prefixes |
| ReplicationSafety.LogIsWhatWasAccepted | src/consensus/consensus.c:243-284 | the log is the sequence of requests the leader accepted, in order |
| ReplicationHistory.ForwardedWasSubmitted | src/consensus/consensus.c:286-296 | every forwarded request in flight was submitted, with this data, by the user of the node that sent it |
| ReplicationHistory.LogWasSubmitted | src/consensus/consensus.c:191-296 | every entry of the log was submitted by a user of some node before |
| ReplicationHistory.DeliveredWasSubmitted | src/consensus/consensus.c:191-718 | nothing is delivered that no user submitted |
| ReplicationHistory.SubmitIsForwarded | src/consensus/consensus.c:286-296 | what a follower's user submits is sent to the leader as it is |
| ReplicationHistory.RequestIsAccepted | src/consensus/consensus.c:243-284 | a request the leader can store becomes the next entry of the log and is announced to all others with its number, its data and the committed mark; one it cannot store changes nothing |
| ReplicationHistory.AcceptIsTaken | src/consensus/consensus.c:313-382 | a follower takes stamp, mark and record of an ACCEPT_REQ, acknowledges it if and only if it could be stored, and ignores one for a committed record |
| ReplicationHistory.AckIsTaken | src/consensus/consensus.c:383-411 | an acknowledgement adds its sender to the nodes recorded with its record, on the leader, before that is committed, and changes nothing else |
| ReplicationHistory.QuestionIsAnswered | src/consensus/consensus.c:414-433 | a held record is sent to the node that asks for it, and nothing else is sent |
| ReplicationHistory.AnswerIsTaken | src/consensus/consensus.c:434-467 | an answer is stored if and only if the record is absent and not committed, and overwrites nothing |
| ReplicationHistory.ForceIsTaken | src/consensus/consensus.c:468-481 | a FORCE_EXEC raises the follower's mark to the leader's and changes no record |
| ReplicationHistory.ProgressIsMade | src/consensus/consensus.c:738-776 | the timer sends again exactly the uncommitted requests that no majority is recorded to hold, and the committed mark |
| ReplicationHistory.DeliveredIsFinal | src/consensus/consensus.c:313-467 | a delivered record is never changed again, neither its data nor its bitmap |
| ReplicationHistory.JoinIsTaken | src/consensus/consensus.c:200-221 | joining, a node takes view and role and starts all three marks at request 0, and loses nothing it stored or delivered |
| ReplicationHistory.OnlyTheLeaderIsHeard | src/consensus/consensus.c:313-481 | in any state, an ACCEPT_REQ of an earlier view or of another node than the leader, and a FORCE_EXEC of another node, change no record and no mark but by executing, and are not acknowledged |
| ReplicationHistory.ResendsBehind | src/consensus/consensus.c:745-752 | in any state, the timer starts behind the later of the committed mark and the start of the current view |
| ReplicationSafety.DeliveredIsLogPrefix | src/consensus/consensus.c:642-718 | what any node has delivered is a prefix of the log, entry k with the data of the k-th accepted request |
| ReplicationSafety.DeliveredAgree | src/consensus/consensus.c:243-479 | any two nodes' delivered sequences, at any two times, are prefixes one of the other |
| ReplicationSafety.DeliveredOnlyGrows | src/consensus/consensus.c:642-718 | nothing delivered is ever taken back or delivered twice |
| ReplicationSafety.DeliveredIsHeldByMajority | src/consensus/consensus.c:298-411 | once any node has delivered request k, at least group_size/2 + 1 nodes hold it with the accepted data |
| ReplicationSafety.LeaderMarks | src/consensus/consensus.c:584-776 | at any time the leader has committed = to-commit <= seen and a record for each stamp seen; more than half of the group is recorded with every committed record, and not with the next |
| ReplicationSafety.FollowerMarks | src/consensus/consensus.c:642-718 | a follower has committed <= to-commit <= the leader's committed, and has delivered everything up to the first absent record |
| GapRepair.GapsAreRepaired | src/consensus/consensus.c:434-718 | once each request has been answered, in any order and with duplicates, committed = to-commit and all of it is delivered once, in order |
| GapRepair.ForceExecAsks | src/consensus/consensus.c:468-481 | a FORCE_EXEC makes a follower ask for every record it lacks up to the leader's mark if and only if the mark is news or nothing is lacking |
| GapRepair.FollowerCatchesUp | src/consensus/consensus.c:434-481 | whatever answers arrive, provided each request has one, the follower ends with what the leader delivered, if and only if the same condition holds |
| GapRepairRuns.DeliveredOnceStored | src/consensus/consensus.c:313-718 | in every run, with any packets between and failing stores, a follower has delivered up to the mark it had exactly once it holds every record up to it |
| GapRepairRuns.FollowerMayStayBehind | src/consensus/consensus.c:468-481 | a run in which a follower that took the mark and lost the answers ignores any number of further FORCE_EXECs and stays behind the leader |
| Recovery.CommitAll | src/consensus/consensus.c:383-776 | from any state with all nodes in the view, packets sent from then on can give every record of the log its quorum |
| Recovery.CatchesUp | src/consensus/consensus.c:414-481 | and then bring any follower to which the mark is news, or that lacks nothing, to deliver the whole log, changing no other node |
| Convergence.RecoversIfNews | src/consensus/consensus.c:313-776 | with everything in flight lost and no new request, all nodes can come to deliver the whole log if and only if something is still uncommitted or no follower in the view has the leader's mark and a gap below it |
| Convergence.RecoversWithRequest | src/consensus/consensus.c:243-776 | after one more request they always can |
| Convergence.RecoversWithForward | src/consensus/consensus.c:243-776 | also after one that a follower's user submits: forwarded, it can come to be delivered by all |
| Convergence.NoDeadEnd | src/consensus/consensus.c:133-776 | both, in every reachable state, of the sequence of accepted requests; and losing nothing is no worse than losing everything |
| ElectionNode.PrepareScanMeaning | src/replica-sys/replica.c:749-775 | the scan counts the nodes that answered and finds the content of the highest accepted number among them |
| ElectionNode.CountPnumMeaning | src/replica-sys/replica.c:929-956 | the learner's inner count is the number of nodes that voted under one number |
| ElectionNode.LearnerCheckMeaning | src/replica-sys/replica.c:929-963 | the learner elects exactly when some number has a majority of votes |
| ElectionMod.LeleMod.ProposerCheckPrepare | src/replica-sys/replica.c:749-775 | the counting loop over the proposer table computes that scan |
| ElectionMod.LeleMod.LearnerCheckAccept | src/replica-sys/replica.c:929-963 | the nested loops over the learner table compute that decision |
| ElectionMod.LeleMod.PhaseTwo | src/replica-sys/replica.c:777-800 | the ACCEPT sent and the tables written, for each choice of repairs |
| ElectionMod.LeleMod.Propose | src/replica-sys/replica.c:803-832 | a new number is used, asked for, and counted at the proposer's own acceptor |
| ElectionMod.LeleMod.ProposerAck | src/replica-sys/replica.c:833-847 | only answers to the current number are recorded, then checked |
| ElectionMod.LeleMod.AcceptorPrepare | src/replica-sys/replica.c:858-896 | only a higher number is promised, persisted and then answered |
| ElectionMod.LeleMod.AcceptorAccept | src/replica-sys/replica.c:897-927 | a number not below the promise is accepted, persisted, learned and then acknowledged to all |
| ElectionMod.LeleMod.LearnerDo | src/replica-sys/replica.c:1313-1347 | a newer vote is recorded; a majority is announced |
| ElectionMod.LeleMod.HandleMsg | src/replica-sys/replica.c:1376-1405 | dispatch of the election messages |
| ElectionCluster.OwnsIsCongruent | src/replica-sys/replica.c:645-666 | a node's numbers are those congruent to its id modulo the group size |
| ElectionCluster.ChosenIsKept | src/replica-sys/replica.c:749-963 | when a content has a majority under one number, every later ACCEPT carries it |
| ElectionCluster.ChosenAgree | src/replica-sys/replica.c:749-963 | two contents accepted by majorities, under any two numbers, are the same |
| ElectionInvariant.StepKeepsInv | src/replica-sys/replica.c:730-963 | with the repairs, every step keeps the promise, vote and table invariant |
| ElectionSafety.OneLeader | src/replica-sys/replica.c:749-963 | in every run with the repairs, all nodes that ever leave the election name the same leader, a node of the group chosen by a majority |
| ElectionHistory.LeaderWasAnnounced | src/replica-sys/replica.c:1313-1347 | in every run of every variant, the leader a node leaves the election with was announced to all other nodes by a node that left it too |
| ElectionHistory.LeaderProposed | src/replica-sys/replica.c:777-847 | in every run of every variant, that leader is a node of the group that has sent a PREPARE |
| ElectionHistory.TimeoutProposes | src/replica-sys/replica.c:803-832 | a timeout asks all other nodes to promise the node's next number, and uses it up |
| ElectionHistory.PrepareIsAnswered | src/replica-sys/replica.c:873-896 | a PREPARE is promised and answered to its sender, with what was accepted before, if and only if its number is the highest seen; otherwise nothing happens |
| ElectionHistory.AcceptIsVoted | src/replica-sys/replica.c:897-927 | an ACCEPT is accepted and the vote told to everybody if and only if its number is not below the highest seen; otherwise nothing happens |
| ElectionProgress.LeaderCanBeLearned | src/replica-sys/replica.c:1330-1347 | from every reachable state in which a node has left the election, every other node but the announcing one can leave it with the same leader |
| ElectionProgress.ElectionCanEnd | src/replica-sys/replica.c:749-963 | from every reachable state of every variant all nodes can still leave the election, if and only if the group has more than one node or a node's own vote is counted |
| ElectionRepairs.AgreementNeedsTheRepairs | src/replica-sys/replica.c:777-896 | no run of any cluster elects two leaders if and only if all three repairs are applied |
| ElectionRepairs.SplitWithoutKeepContent | src/replica-sys/replica.c:873-895 | a run that elects two leaders because a PREPARE erases the accepted content |
| ElectionRepairs.SplitWithoutOwnAcceptor | src/replica-sys/replica.c:777-800 | a run that does because the proposer votes past its own acceptor |
| ElectionRepairs.SplitWithoutOncePerPnum | src/replica-sys/replica.c:833-847 | a run that does because phase two is entered twice under one number |
| ElectionSafety.AcceptorState | src/replica-sys/replica.c:858-927 | in every run, repaired or not, accepted <= highest seen, the persisted record is the acceptor's, and everybody was told of the accepted number; of its content too, with the first repair |
| ElectionSafety.AcceptorOnlyRises | src/replica-sys/replica.c:803-927 | in every run, repaired or not, neither number of an acceptor is lower at a later time |
| ElectionSafety.HandlersPersistFirst | src/replica-sys/replica.c:873-920 | every acknowledgement leaves after the record it speaks of was persisted |
| ElectionSafety.ProposalNumbers | src/replica-sys/replica.c:645-666 | in every run, repaired or not, proposal numbers are congruent to the proposer's id and no two nodes use the same |
| MergeSort.SortIsStablySorted | src/include/proxy/uthash.h:729-806 | doubling runs from 1 until one merge remains yields a sorted permutation in which equal elements keep their order |
| MergeSort.MergePassDoublesRuns | src/include/proxy/uthash.h:739-799 | a pass over sorted runs of length w leaves sorted runs of length 2w |
| MergeSort.MergeIsStable | src/include/proxy/uthash.h:755-796 | on a tie the first run goes first: merging keeps the order of equal elements |
| HashSort.TakeRun | src/include/proxy/uthash.h:746-753 | the counting loop finds the length of the next run and what follows it |
| HashSort.MergeRuns | src/include/proxy/uthash.h:754-796 | relinking in place merges the two runs behind what was merged before, with every prev and next link right |
| HashSort.Pass | src/include/proxy/uthash.h:739-801 | one pass computes MergePass, and at most one merge happened exactly if the list is no longer than two runs |
| HashSort.SortList | src/include/proxy/uthash.h:736-808 | the pass loop ends within 32-bit run lengths and leaves the list linked as the sorted list |
| HashTable.Table.Srt | src/include/proxy/uthash.h:729-812 | the application order becomes its sort, buckets and contents stay, and the table stays valid |
| HashTable.Table.Find | src/include/proxy/uthash.h:103-114 | the table answers as the finite map from keys to items does |
| HashTable.Table.Add | src/include/proxy/uthash.h:182-205 | the map gains the item, the order gains it at the end, and the table stays valid across an expansion |
| HashTable.Table.AddToBkt | src/include/proxy/uthash.h:621-632 | the number of buckets doubles exactly if the chain reached its threshold and expansion is not inhibited |
| HashTable.Table.Delete | src/include/proxy/uthash.h:224-257 | the map loses the item's key, the order loses the item, everything else keeps its place |
| HashTable.Table.Replace | src/include/proxy/uthash.h:172-180 | the map is updated at the key, and what was there before is returned |
| HashTable.Table.Expand | src/include/proxy/uthash.h:676-722 | twice the buckets hold the same items, each where its hash value says; ideal length, overflow, multipliers and the decision to stop expanding are as documented |
| HashTable.GivesUpAfterTwoInARow | src/include/proxy/uthash.h:714-720 | over the expansions of a table: expanding is given up if and only if two in a row have left more than half of the items badly placed |
| HashTable.Table.Fsck | src/include/proxy/uthash.h:287-337 | the integrity check accepts every valid table |
| HashChain.FindInBucket | src/include/proxy/uthash.h:607-618 | the chain walk finds the item with the key exactly if there is one |
| HashChain.Unlink | src/include/proxy/uthash.h:635-645 | the chain loses exactly the item, with its links and count right |
| HashChain.MoveItem | src/include/proxy/uthash.h:694-710 | one turn of the expansion puts the item first in its new chain and accounts for its position |
| HashChain.SpreadAll | src/include/proxy/uthash.h:691-712 | all chains are emptied into the new buckets |
| HashChain.OverflowOfPush | src/include/proxy/uthash.h:700-704 | counting the items pushed past the ideal length gives the sum over buckets of what exceeds it |
| HashChain.ChainsCount | src/include/proxy/uthash.h:293-318 | the chain lengths add up to the number of items |
| BucketIndex.ToBktIsIndex | src/include/proxy/uthash.h:207-210 | masking with a power of two less one keeps the lowest bits of the hash value |
| BucketIndex.BucketAfterDoubling | src/include/proxy/uthash.h:699-700 | after doubling, an item of bucket b belongs to b or to b + n |
| BucketIndex.IdealChainIsCeiling | src/include/proxy/uthash.h:687-689 | shift and mask compute the least chain length that can hold all items |
| ProxyReplay.LoopEnds | src/proxy/proxy.c:79-123 | from any place in any database: the walk never turns back if and only if no record is missing from where it enters the last view up to the highest announced, and that is not the last number of all; the loop ends if and only if that is so of the walk from cur_rec or of the walk from record 1 |
| ProxyReplay.EntryMeaning | src/proxy/proxy.c:79-120 | the last view is entered at request 1, unless the walk starts in it or comes over request 2^32 - 1 of the view before |
| ProxyReplay.EndlessReplay | src/proxy/proxy.c:105-120 | one announced and missing record of the last view, and the loop never ends |
| ProxyReplay.EndsInOrder | src/proxy/proxy.c:92-123 | a loop that ends has gone over the records once in increasing order, or twice if it wrapped: up to the wrap, and then from record 1 |
| ProxyReplay.PathMovesForward | src/proxy/proxy.c:79-123 | over a history of deliveries with nothing stored where the walk looks in vain, it never turns back, in no view |
| ProxyReplay.Proxy.RealDoAction | src/proxy/proxy.c:92-123 | wherever the loop ends, it executes and stops as the walk over record numbers does, across a wrap too |
| ProxyReplay.ReplayIsOrdered | src/proxy/proxy.c:92-123 | whatever is stored, records are executed in increasing order, each once, none beyond the highest announced, until the end or a wrap |
| ProxyReplay.ReplayIsFaithful | src/proxy/proxy.c:79-123 | the loop ends and has executed exactly the delivered records if and only if no record is stored where the walk looks in vain |
| ProxyReplay.UndeliveredIsExecuted | src/proxy/proxy.c:92-123 | a database in which one is: the undelivered record is executed between the delivered ones |
| ProxyReplay.ProbesMeaning | src/proxy/proxy.c:79-84 | those places are the one behind the last delivery of a view that was left and the first of a view without deliveries |
| ProxyReplay.ProbesAreDeleted | src/replica-sys/replica.c:386-390 | they are record 0 and exactly the records update_view deletes when each view is closed with its last delivered request |
| ProxyReplay.ExecutesWhatIsDelivered | src/proxy/proxy.c:92-264 | over every interleaving of both threads, of stores, and of deletions of undelivered records, the proxy has executed a prefix of the deliveries, each once and in order, and everything announced before a finished run began |
| ProxyReplay.TurnsEnd | src/proxy/proxy.c:92-123 | every turn of the loop moves towards the highest record it was given, which stays fixed |
| ProxyReplay.EverythingCanBeExecuted | src/proxy/proxy.c:92-123 | at any time of any run, the proxy's thread alone can come to have executed everything delivered |
| Framing.Connection.OnRead | src/proxy/proxy.c:442-471 | a read hands on the messages the loop cuts from the buffer, with sizes added modulo 2^64, and keeps the rest, wherever the loop ends |
| Framing.LoopEnds | src/replica-sys/replica.c:1488-1514 | the loop ends if and only if it meets no complete frame of size 0 |
| Framing.ParseConserves | src/replica-sys/replica.c:1475-1521 | messages and kept bytes together are the stream, whatever sizes the headers hold |
| Framing.ParseFrames | src/proxy/proxy.c:455-468 | cut at the sizes the headers announce, each message is exactly one frame, what is kept is a strict part of one, and the loop ends |
| Framing.SegmentationIndependent | src/proxy/proxy.c:411-471 | what the code hands on and keeps, and whether it stands still, does not depend on how the stream is cut into reads, whatever sizes the headers hold |
| Framing.FitsIsExact | src/replica-sys/replica.c:1493-1503 | the sum in size_t, of an announced size held in a size_t or in an int, is the announced one if and only if it does not wrap and the int keeps the value |
| Framing.SumMeaning | src/replica-sys/replica.c:1493-1503 | the int keeps the low 32 bits and is sign-extended; the sum is exact but for one multiple of 2^64 |
| Framing.TurnAgrees | src/proxy/proxy.c:461-463 | a turn cuts what the header announces if and only if the size fits, or neither frame is complete yet; in the proxy, if and only if header and size together stay below 2^64 |
| Framing.CodedIsMeant | src/replica-sys/replica.c:1488-1514 | the code hands on exactly the announced messages of a stream if and only if every header it meets fits |
| Framing.ReadsAreMeant | src/proxy/proxy.c:442-471 | the same over any sequence of reads |
| Framing.StuckHeader | src/proxy/proxy.c:455-468 | a header that announces 2^64 - 16: the sum is 0 and the loop stands still |
| Framing.HalvedHeader | src/proxy/proxy.c:455-468 | a header that announces 2^64 - 8: half of it is handed on as a message |
| Framing.CutHeader | src/replica-sys/replica.c:1493-1503 | a header that announces 2^32, held in an int: it is handed on alone, as a complete message |
| ConnectionKeys.KeysApart | src/proxy/proxy.c:72-77 | two identifiers are equal exactly if node, count and time are |
| ConnectionKeys.KeysDistinct | src/proxy/proxy.c:556-561 | all identifiers of all nodes are distinct if and only if no node accepts 2^16 + 1 connections within one second |
| GlobPattern.MatchPrefix | client-ld-preload/Mongoose_Aget/mongoose/mongoose.c:878-915 | the result is that of the first alternative with a positive one, else of the last |
| GlobPattern.MatchOne | client-ld-preload/Mongoose_Aget/mongoose/mongoose.c:888-914 | without alternatives the result is the length of the longest matching prefix, and -1 exactly if no prefix matches |
| GlobPattern.LongestIsUnique | client-ld-preload/Mongoose_Aget/mongoose/mongoose.c:888-914 | that determines the result |
| GlobPattern.MatchStar | client-ld-preload/Mongoose_Aget/mongoose/mongoose.c:895-909 | trying a star from its far end finds the longest match |
| GlobPattern.ReachMeaning | client-ld-preload/Mongoose_Aget/mongoose/mongoose.c:895-902 | a single star reaches over no slash, a double one to the end |
| GlobPattern.PatternLaws | client-ld-preload/Mongoose_Aget/mongoose/mongoose.c:888-914 | what a pattern matches, by its first character, without reference to the matcher |
| GlobPattern.Crossing | client-ld-preload/Mongoose_Aget/mongoose/mongoose.c:895-909 | of two matches, one starting later and ending earlier, the parts can be exchanged inside a star: why greedy is longest |
| GlobPattern.ResultMeaning | client-ld-preload/Mongoose_Aget/mongoose/mongoose.c:882-886 | the result is positive if and only if an alternative matches a non-empty prefix, and then the longest match of the first that does |
| Digest.CounterAdds | client-ld-preload/Mongoose_Aget/mongoose/mongoose.c:2153-2156 | the two words with their carry stay 8 times the length modulo 2^64 |
| Digest.PaddedBlocks | client-ld-preload/Mongoose_Aget/mongoose/mongoose.c:2186-2206 | the one or two last blocks are those of the padded message |
| Digest.Md5.Update | client-ld-preload/Mongoose_Aget/mongoose/mongoose.c:2150-2184 | the context depends only on the bytes given so far, not on how they were cut |
| Digest.Md5.Final | client-ld-preload/Mongoose_Aget/mongoose/mongoose.c:2186-2211 | the digest is the transform folded over the message, a byte 0x80, the fewest zero bytes, and eight bytes that read, low byte first, as 8 times the length modulo 2^64: sections 3.1 and 3.2 of RFC 1321 |
| Digest.Sha1.Update | client-ld-preload/Mongoose_Aget/mongoose/mongoose.c:3747-3766 | the last copy stays inside the block if and only if block content and length together are below 2^32, and then the context depends only on the bytes given so far |
| Digest.Sha1.Final | client-ld-preload/Mongoose_Aget/mongoose/mongoose.c:3768-3789 | the same with the length read high byte first: section 4 of RFC 3174 |
| Digest.DigestIsDetermined | client-ld-preload/Mongoose_Aget/mongoose/mongoose.c:2186-2211 | that determines both digests |
| SocketQueue.Context.ConsumeSocket | client-ld-preload/Mongoose_Aget/mongoose/mongoose.c:4883-4910 | the socket waiting longest is taken, each once; the wrap loop moves no socket |
| SocketQueue.Context.ProduceSocket | client-ld-preload/Mongoose_Aget/mongoose/mongoose.c:4962-4980 | a socket is queued exactly if there is room, and otherwise dropped, which happens only when stopping |
| SocketQueue.FirstInFirstOut | client-ld-preload/Mongoose_Aget/mongoose/mongoose.c:4883-4980 | over any interleaving of one master and many workers, sockets come out in the order they went in, each once, at most twenty wait, and none offered is lost before the server stops |
| SocketQueue.WhoMayEnter | client-ld-preload/Mongoose_Aget/mongoose/mongoose.c:4883-4980 | a worker waits exactly while no socket does, the master exactly while twenty do, and nobody once the server stops: one of them can always go on |
| UrlCodec.RoundTrip | client-ld-preload/Mongoose_Aget/mongoose/mongoose.c:1673-1699 | decoding undoes encoding for every byte string, in plain and in form mode |
| UrlCodec.DecodeMeaning | client-ld-preload/Mongoose_Aget/mongoose/mongoose.c:1673-1699 | for every text: a percent sign with two hexadecimal digits of either case stands for its value, a plus sign in form mode for a space, anything else for itself, a percent sign without two digits too |
| UrlCodec.EncodedByte | client-ld-preload/Mongoose_Aget/mongoose/mongoose.c:2538-2553 | letters, digits and ._-$,;~() are left as they are, every other byte becomes a percent sign and two lower-case hexadecimal digits |
| UrlCodec.BufferRoundTrip | client-ld-preload/Mongoose_Aget/mongoose/mongoose.c:1673-2556 | through both buffers, given three bytes and a terminator for each byte, the decoder returns the source and its length |
| UrlCodec.UrlEncode | client-ld-preload/Mongoose_Aget/mongoose/mongoose.c:2538-2556 | in any buffer: the longest part of the encoding that fits, then one place for each further byte, written only if the byte needs no escape, then the terminator; nothing else changes |
| UrlCodec.EncodedWhole | client-ld-preload/Mongoose_Aget/mongoose/mongoose.c:2538-2556 | a buffer that can hold the encoding and a terminator gets exactly these |
| UrlCodec.EncodedCut | client-ld-preload/Mongoose_Aget/mongoose/mongoose.c:2543-2555 | otherwise at most two places before the terminator hold no part of the encoding; the first of them keeps its old byte, and there is one exactly if an escape did not fit |
| UrlCodec.UrlDecode | client-ld-preload/Mongoose_Aget/mongoose/mongoose.c:1673-1699 | a buffer that can hold the text gets all of it and its length is returned; otherwise what fits and -1 |

## Left out

Replication:

- View changes as a claim about runs: consensus_update_role resets all three marks, and the boundary record written at src/replica-sys/replica.c line 380 holds the bytes of a pointer, so nothing about requests of an older view follows. The handlers' branches for marks in two views are modelled; what a record reads as when it is taken for a boundary is an arbitrary value per record number.
- ConsensusComp.Component.MakeProgress: requires, beside the source's assertions, that the records it sends again are there, because the source uses them without a test.
- The loops over 64-bit record numbers are not modelled at record number 2^64 - 1, where their counter wraps.
- The group has at most 31 nodes, because the bitmap is built with the int shift `1 << node_id`, and request numbers stay below 2^32 - 1.
- Allocation failures, time stamps, the unused is_closed flag, logging and the record-number-only deliver mode (both modes are one upcall with the record number and its data).
- Followers' bitmaps are arbitrary values: the source never initialises them and only the leader reads its own.
- Liveness beyond what Convergence says can happen: no scheduler is assumed, so nothing says when a request is sent again or that a packet arrives.

Election:

- One instance from a freshly allocated module; later instances restart proposal numbers over old acceptor state.
- The retry loop around acceptor_update_record is its eventual success; timers, the silent period and stop_propose only decide when a node proposes, which is arbitrary here.
- ANNOUNCE_ACK, the edge computation and the close messages that follow the announcement; LELE_HIGHER_NODE, which nothing sends.
- Proposal numbers are unbounded integers.

Hash table:

- Handle and item are one object and every handle belongs to one table, so the offset arithmetic between them and the tbl pointer of each handle are not modelled; the table and the user's head pointer are one object.
- The comparison function of the sort is a function of the items alone: it does not read the links being changed.
- Allocation failures end the program in the source; counters are unbounded except the run length of the sort; HASH_SELECT, HASH_CLEAR, the Bloom filter and the hash functions themselves.
- HashTable.Table.Add: requires that the key is not in the table, which is what the source asks of callers that do not use HASH_REPLACE.

Proxy:

- ProxyReplay.Proxy.RealDoAction: requires that the loop ends; LoopEnds says exactly when it does.
- ProxyReplay.ExecutesWhatIsDelivered: assumes of the consensus component that each view's stamps are delivered from 1 without a gap, that a delivered record is stored and not deleted, and that a record stored where the walk looks in vain is deleted before the next view delivers and not stored again; ReplayIsFaithful shows that this is needed. With which last request the election closes a view is not modelled.
- Sockets, the connection table, the interpretation of a record's action, the debugging mode that bypasses the database, and a stored record of size zero, which the source cannot tell from a missing one.
- Framing.Connection.OnRead: requires that the loop ends; LoopEnds says exactly when it does.
- Framing: what the message callbacks make of a frame shorter than a header, which they read as if it were longer; a failed allocation of a message buffer, after which the source's loop does not advance.

Web server:

- GlobPattern.MatchPrefix: the character behind the pattern is taken not to be a star, as it is for all callers (terminator, comma, equals sign or bar).
- Digest: the block transforms, the byte order of big-endian machines, the encoding of the state as digest bytes and the final clearing of the context.
- Digest.Sha1.Update: says nothing about the context after a copy that leaves the block.
- SocketQueue: condition variables; a critical section starts where its wait ends. Both counts of sockets are ghost state. What a worker does with its socket: when the server is stopping, worker_thread drops the one it has just taken.
- UrlCodec: reading past the end of the text finds a terminator; decoding in place over the source is not modelled.
- Everything else: HTTP, CGI, SSI, TLS, Lua, websockets, files and dates; clients, scripts, the preload shims, configuration, crash and restart, pings and reconnects.
