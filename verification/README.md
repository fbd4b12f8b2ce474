# Redis with remove-win CRDTs: a verified model

The project models six parts of the server in `redis-6.0.5/src` and proves what
they promise, for all inputs, all runs or all reachable states. Code that changes
things in place is modelled by classes and methods with loops, each proved
against a function on values; the theorems are about those functions.

* **Remove-win CRDTs** (`VectorClock`, `RemoveWin`, `RemoveWinElement`,
  `Convergence`, `RemoveWinSystem`, `ListPosition`, `ReplicatedList`,
  `ListConvergence`, `ListRun`, `ListDivergence`). An element has a header of
  winner and remove history; adds, updates and removes arrive in any order. The
  state after any delivery sequence has a closed form, from which strong convergence, remove-wins and, over runs of
  replicas, the uniqueness of adds follow. The effects of the source remove with
  the operation's own history before they check it, so no delivery order is
  assumed. The position identifiers of lists form a total order; the
  construction of a new identifier keeps its promise to lie between its
  neighbours exactly under the stated condition, and a counterexample is given.
  An arriving insert is ignored if the element is known, so two replicas that
  insert one element at the same time keep two identifiers for it: lists converge
  exactly in the runs in which that does not happen.
* **Redis Cluster** (`ClusterNode`, `ClusterRun`, `LateVote`,
  `EpochCollision`, `ClusterSlots`, `SlotOwnership`): epochs, votes and slots,
  following the sections "Cluster current epoch", "Configuration epoch", "Replica election and
  promotion", "Hash slots configuration propagation" and "configEpoch conflicts
  resolution algorithm" of the Redis Cluster Specification. A run is a sequence of
  steps of nodes over a set of messages that are never lost from it, so that each
  can arrive late, out of order and repeatedly. The vote counter is restarted when
  an election is scheduled, but the election epoch advances only when it starts;
  the invariant behind the uniqueness of the winner holds exactly in the runs that
  count no vote in between, and `LateVote` gives a run with two winners.
* **The append-only file** (`Resp`, `AofLoad`, `AofAppend`, `AofFlush`,
  `RewriteBuffer`, `AofFeed`, `AofRewrite`, `AofDataset`): encoder and loader of commands (sections
  "RESP Arrays" and "RESP Bulk Strings" of the Redis serialization protocol
  specification), writes with every outcome of the system calls, and the
  background rewrite with its buffer, pipe and stop/ack handshake. The dataset is
  abstract in the rewrite theorems (a type and what commands do to it);
  `AofDataset` shows that what the child writes for strings, lists, sets and
  hashes is a snapshot in their sense.
* **Access control lists** (`Acl`, `AclUser`, `AclFile`): the rule interpreter,
  the printer, their round trip, and the all-or-nothing loading of the file.
* **Blocked clients** (`Blocked`): the two-way index of clients and keys, the
  ready keys, and the loop that serves them and makes work for itself.
* **Bit algorithms** (`Bits`, `Bitfield`, `Popcount`, `BitScan`, `BitOp`): word at
  a time against bit by bit, and the arithmetic of BITFIELD.

`Collections` holds options and small facts about sequences and sets.
`dafny verify dfyconfig.toml` checks the whole project.

Where code and comments differ, the model follows the code. `constructLeid` says
that the new identifier lies between its neighbours; `ListPosition.LeftOfRight`
says when. The comment on `checkSignedBitfieldOverflow` says that its differences
are used only when they cannot overflow; `Bitfield.SignedSetIsExact` says when SET
is exact all the same. After `+@all -get +get` a user has every bit but not the
ALLCOMMANDS flag, and gets the flag when printed and reloaded.

System calls, clocks, random numbers, hashing and matching are parameters: the
outcome of every write, whether truncation works, the time, the random number,
SHA-256 (`hash`), glob matching (`glob`), the lookup of command names (`lookup`),
the meaning of commands other than those of a rewritten file (`other`).

## Model

| member | source | states |
|---|---|---|
| VectorClock.Join | redis-6.0.5/src/vector_clock.c:91-98 | the join is the least upper bound of two clocks in the pointwise order |
| VectorClock.Equal | redis-6.0.5/src/vector_clock.c:33-41 | true exactly when the two clocks have the same components (the ids are not compared) |
| VectorClock.Update | redis-6.0.5/src/vector_clock.c:91-98 | the target becomes the join of both clocks when the sizes agree, also when both are the same clock, and stays as it is otherwise |
| RemoveWinElement.RwfElement.constructor | redis-6.0.5/src/RWFramework.h:47-69 | a new header is the fresh element: no winner, all-zero history |
| RemoveWinElement.RwfElement.AddCheck | redis-6.0.5/src/RWFramework.h:104-113 | an add is admitted iff its history is the current one and its issuer beats the winner |
| RemoveWinElement.RwfElement.UpdateCheck | redis-6.0.5/src/RWFramework.h:115-120 | an update is admitted iff its history is the current one, and marks an element without winner as waiting |
| RemoveWinElement.RwfElement.RemoveCheck | redis-6.0.5/src/RWFramework.h:122-131 | a history not covered yet is joined in and clears the winner; a covered one changes nothing |
| RemoveWinElement.RwfElement.RemoveFunc | redis-6.0.5/src/t_rwfzset.c:41-51 | removing forgets payload and score exactly when the history was not covered |
| RemoveWinElement.RwfElement.AddEffect | redis-6.0.5/src/t_rwfzset.c:63-76 | the in-place effect of an add is the step of the model |
| RemoveWinElement.RwfElement.IncrEffect | redis-6.0.5/src/t_rwfzset.c:91-104 | the in-place effect of an increment is the step of the model |
| RemoveWinElement.RwfElement.RemEffect | redis-6.0.5/src/t_rwfzset.c:118-121 | the in-place effect of a remove is the step of the model |
| RemoveWinElement.RwfElement.PrepareAdd | redis-6.0.5/src/RWFramework.h:77-85 | an add is issued only while the element is absent, and carries the current history |
| RemoveWinElement.RwfElement.PrepareRem | redis-6.0.5/src/RWFramework.h:87-95 | a remove is issued only while the element exists, its history is the current one with the own component raised, and the clock itself is left as it was |
| RemoveWin.DeliverIsSummary | redis-6.0.5/src/RWFramework.h:104-131 | the state after any delivery sequence is a closed form of the operations: join of the histories, winner, payload, sum of increments under the final history |
| RemoveWin.WinnerIsGreatest | redis-6.0.5/src/RWFramework.h:104-113 | the winner under a history is the greatest issuer among its adds, with that add's payload |
| Convergence.HeaderConverges | redis-6.0.5/src/RWFramework.h:104-131 | any two delivery orders of the same operations, with any repetition, end with equal history and winner |
| Convergence.Converges | redis-6.0.5/src/t_rwfzset.c:41-124 | any two delivery orders of the same operations end with equal elements, payload and visible score included |
| Convergence.RemoveWins | redis-6.0.5/src/RWFramework.h:104-131 | the element exists iff some add or update was issued knowing every history in play |
| Convergence.GreatestAddWins | redis-6.0.5/src/RWFramework.h:104-120 | the winner is the greatest id among the adds under the final history, with its payload; the waiting mark iff only updates qualify; none iff nothing does |
| RemoveWinSystem.RunsKeepInv | redis-6.0.5/src/CRDT.h:130-142 | every run of replicas that prepare and apply in one step, with messages in any order, keeps the system invariant |
| RemoveWinSystem.AddUniqueness | redis-6.0.5/src/RWFramework.h:77-113 | in every run a replica issues at most one add of an element under one remove history |
| RemoveWinSystem.StrongConvergence | redis-6.0.5/src/RWFramework.h:104-131 | in every run two replicas that applied the same messages hold the same element |
| RemoveWinSystem.RemovesWin | redis-6.0.5/src/RWFramework.h:47-69 | in every run a replica that applied everything has the element iff somebody added or updated it after learning of every remove |
| ListPosition.LeidCmp | redis-6.0.5/src/list_basics.c:54-62 | the sign of the comparison is the lexicographic order in which a prefix comes first |
| ListPosition.LessTransitive | redis-6.0.5/src/list_basics.c:54-62 | the order of identifiers is transitive |
| ListPosition.LessTotal | redis-6.0.5/src/list_basics.c:54-62 | two different identifiers are ordered one way |
| ListPosition.ConstructLeid | redis-6.0.5/src/list_basics.c:64-111 | the loops build exactly the identifier of the specification, for every pair of neighbours and every random number |
| ListPosition.ConstructValid | redis-6.0.5/src/list_basics.c:64-111 | the constructed identifier is well formed for well-formed neighbours |
| ListPosition.RightOfLeft | redis-6.0.5/src/list_basics.c:64-111 | it always lies to the right of the left neighbour |
| ListPosition.LeftOfRight | redis-6.0.5/src/list_basics.c:64-111 | it lies to the left of the right neighbour iff the right neighbour does not extend the left one by components of at most 1 |
| ListPosition.SqueezedExample | redis-6.0.5/src/list_basics.c:85-90 | three identifiers that constructLeid makes, between two of which it does not put the next one |
| ListPosition.IdsUnique | redis-6.0.5/src/list_basics.c:64-110 | replicas that number their own inserts never construct the same identifier twice, whatever the neighbours and random numbers |
| ReplicatedList.ListReplica.Prepare | redis-6.0.5/src/t_rwflist.c:163-212 | an insert is refused as the source refuses it; otherwise it carries a new identifier between its neighbours and raises the clock, or for an element added again the identifier it has |
| ReplicatedList.ListReplica.Apply | redis-6.0.5/src/t_rwflist.c:213-251 | an insert of a known element changes nothing; any other is put where the walk from its predecessor or the head ends, on every chain, sorted or not |
| ReplicatedList.SortedUnlessMisplaced | redis-6.0.5/src/t_rwflist.c:227-250 | a new element keeps the chain sorted iff its predecessor is not here under an identifier greater than the new one |
| ListConvergence.FirstWins | redis-6.0.5/src/t_rwflist.c:222-226 | a chain holds an element under the identifier of the first message about it |
| ListConvergence.ListsConverge | redis-6.0.5/src/t_rwflist.c:213-251 | the same messages in any orders and repetitions give the same list, sorted, if no element comes with two identifiers |
| ListConvergence.TwoIdsDiverge | redis-6.0.5/src/t_rwflist.c:222-226 | if an element comes with two identifiers, two orders of the same messages give different lists |
| ListConvergence.OrdersAgreeIff | redis-6.0.5/src/t_rwflist.c:213-251 | all orders and repetitions of a set of messages give the same list iff no element comes with two identifiers |
| ListRun.RunsKeepInv | redis-6.0.5/src/t_rwflist.c:163-251 | in every run of inserting and receiving replicas identifiers name one element each, and each was made behind a smaller one that was sent |
| ListRun.RunsAgreeIff | redis-6.0.5/src/t_rwflist.c:163-251 | in every run all orders of the messages sent so far agree iff no element was given two identifiers |
| ListRun.ReplicasConverge | redis-6.0.5/src/t_rwflist.c:163-251 | in every run that gives no element two identifiers, replicas that applied the same messages hold the same sorted list |
| ListRun.ArrivalFits | redis-6.0.5/src/t_rwflist.c:227-250 | in such a run an arriving element has a new identifier, greater than that of its predecessor at every replica that knows it |
| ListDivergence.SameElementTwice | redis-6.0.5/src/t_rwflist.c:222-226 | a run in which two replicas insert one element at the same time and keep different lists after exchanging everything |
| ListDivergence.OutOfOrder | redis-6.0.5/src/t_rwflist.c:236-250 | an element with two identifiers, and a later insert behind it leaves a chain out of order |
| ReplicatedList.LandsBehindPredecessor | redis-6.0.5/src/t_rwflist.c:185-195 | a local insert lands directly behind its predecessor iff the successor is not squeezed against it |
| ClusterNode.ClusterState.GetMaxEpoch | redis-6.0.5/src/cluster.c:1011-1024 | the maximum of all known epochs, which is the current epoch when the epoch bound holds |
| ClusterNode.ClusterState.ReceiveHeader | redis-6.0.5/src/cluster.c:1763-1774 | a header of a known sender raises the current epoch and the sender's configEpoch, never lowers them |
| ClusterNode.ClusterState.HandleCollision | redis-6.0.5/src/cluster.c:1120-1135 | of two masters with the same configEpoch the one with the smaller name takes a new epoch |
| ClusterNode.ClusterState.BumpWithoutConsensus | redis-6.0.5/src/cluster.c:1055-1075 | a new epoch is taken iff the own one is zero or not the greatest known; then, if epochs are bounded, it exceeds all known ones |
| ClusterNode.ClusterState.VoteIfNeeded | redis-6.0.5/src/cluster.c:2810-2911 | a vote is granted iff all conditions hold, and then the voted epoch is recorded |
| ClusterNode.ClusterState.HandleFailover | redis-6.0.5/src/cluster.c:3120-3215 | scheduling, starting and winning an election as the clock tests and the vote count decide |
| ClusterRun.EpochsBounded | redis-6.0.5/src/cluster.c:1763-1774 | in every run every known epoch of a node is at most its current epoch, and every message carries epochs at most that of its header, UPDATE included |
| ClusterRun.BoundKept | redis-6.0.5/src/cluster.c:2131-2152 | every step, message deliveries included, keeps the epoch bound |
| ClusterRun.GrantsIncrease | redis-6.0.5/src/cluster.c:2810-2911 | in every run the epochs in which a voter grants its vote strictly increase |
| ClusterRun.CountedVoteIsExact | redis-6.0.5/src/cluster.c:2106-2118 | a vote that is counted has exactly the epoch of the election, although the test is only >= |
| ClusterRun.ElectionSafety | redis-6.0.5/src/cluster.c:3120-3215 | with a fixed electorate and each vote delivered at most once, in a run that counts no vote between restarting the count and starting the election no two nodes win the same epoch |
| ClusterRun.InvKeptExactly | redis-6.0.5/src/cluster.c:2106-2118 | a step keeps counts exact and winners backed by a quorum iff it does not count a vote between restart and start |
| ClusterRun.RunsKeepInvExactly | redis-6.0.5/src/cluster.c:3120-3130 | over a whole run the invariant of election safety holds in every state iff no step counts such a vote |
| LateVote.LateVoteBreaksSafety | redis-6.0.5/src/cluster.c:3120-3130 | three masters, one failed, and its two replicas: votes of epoch 1 that arrive after the restart give epoch 2 two winners |
| EpochCollision.MoveEffect | redis-6.0.5/src/cluster.c:1120-1135 | a master moves only to get away from a greater-named one, and to an epoch it never had |
| EpochCollision.CollisionsEnd | redis-6.0.5/src/cluster.c:2050-2057 | under any order, delay and repetition of pings a master with k greater-named masters moves at most 2^k - 1 times |
| EpochCollision.SettledIsDistinct | redis-6.0.5/src/cluster.c:1120-1135 | no up-to-date ping causes a move iff all configEpochs are distinct |
| ClusterSlots.SlotTable.constructor | redis-6.0.5/src/cluster.c:466-467 | an empty table and an empty bitmap agree |
| ClusterSlots.SlotTable.AddSlot | redis-6.0.5/src/cluster.c:3790-3795 | fails on an assigned slot and otherwise assigns it, with bitmap and counter |
| ClusterSlots.SlotTable.DelSlot | redis-6.0.5/src/cluster.c:3800-3807 | fails on an unassigned slot; the assertion on the cleared bit holds |
| ClusterSlots.SlotTable.DelNodeSlots | redis-6.0.5/src/cluster.c:3811-3821 | exactly the slots of the node are freed, and their number is returned |
| ClusterSlots.SlotTable.DelNode | redis-6.0.5/src/cluster.c:948-975 | slots, importing and migrating marks of the node are gone, and nothing points to it |
| ClusterSlots.SlotTable.UpdateSlots | redis-6.0.5/src/cluster.c:1581-1660 | the scan with one unbinding and binding per slot gives the declared owners; the dirty slots are those lost with keys in them; the node follows the sender iff its master lost its last slot |
| ClusterSlots.SlotTable.ReceiveMessage | redis-6.0.5/src/cluster.c:1989-2004 | header epoch, comparison of the bitmaps and scan together are one function of the table |
| ClusterSlots.SlotTable.ReceiveUpdate | redis-6.0.5/src/cluster.c:2131-2152 | an UPDATE changes epoch and slots only when it brings a newer epoch, and no slot when it is about the node itself |
| ClusterSlots.UpdateIsMessage | redis-6.0.5/src/cluster.c:2131-2152 | news about another node have the effect of a message of that node |
| ClusterSlots.SlotTable.SetMaster | redis-6.0.5/src/cluster.c:4017-4033 | a master without slots that turns into a replica imports and migrates nothing any more |
| ClusterSlots.SlotTable.VerifyWithData | redis-6.0.5/src/cluster.c:3962-4009 | slots with keys that are neither assigned here nor imported are taken if free and marked as imported otherwise |
| ClusterSlots.SlotTable.ReplaceMaster | redis-6.0.5/src/cluster.c:3012-3028 | a failover moves exactly the slots of the old master |
| ClusterSlots.SlotTable.ChangeSlots | redis-6.0.5/src/cluster.c:4361-4410 | ADDSLOTS and DELSLOTS succeed iff all slots are valid, free or busy as needed, and named once; an error changes nothing; the assertion in the loop holds |
| ClusterSlots.SlotTable.AssignSlot | redis-6.0.5/src/cluster.c:4453-4500 | SETSLOT NODE: when it is refused, what it assigns, which marks it clears and when it asks for a new epoch |
| ClusterSlots.SlotTable.Reset | redis-6.0.5/src/cluster.c:546-572 | nothing is assigned, imported or migrated, and only the node itself is known |
| ClusterSlots.SlotTable.Serve | redis-6.0.5/src/cluster.c:3749-3821 | after any sequence of commands, pings, UPDATEs, demotions of a sender, failovers and role changes slots[j] is n exactly when bit j of n is set, numslots is the number of bits, and no assertion fails |
| ClusterSlots.AgreementDetermines | redis-6.0.5/src/cluster.c:3749-3807 | bitmaps and counters are determined by the table |
| ClusterSlots.SkipIsSafe | redis-6.0.5/src/cluster.c:1989-2004 | skipping the scan when bitmap and claim are equal changes nothing |
| SlotOwnership.OwnershipConverges | redis-6.0.5/src/cluster.c:1604-1641 | for any order and repetition of headers that covers all masters, each slot is owned by the claimer with the greatest epoch, and free iff nobody claims it |
| SlotOwnership.ObserversAgree | redis-6.0.5/src/cluster.c:1581-1641 | two observers that heard every master hold the same table |
| Resp.CatCommand | redis-6.0.5/src/aof.c:522-545 | the loop appends exactly the RESP encoding of the command |
| Resp.HeaderRead | redis-6.0.5/src/aof.c:779-788 | a header line is read whole and gives the number that was written |
| Resp.CommandRead | redis-6.0.5/src/aof.c:779-826 | an encoded command with arbitrary binary arguments is read back, from any position |
| Resp.CommandCut | redis-6.0.5/src/aof.c:779-826 | a command cut anywhere between its first and its last byte is an unexpected end, never an error of format and never a shorter command |
| AofLoad.Load | redis-6.0.5/src/aof.c:710-917 | the loading loop: empty file, RDB preamble, and otherwise the recursive specification |
| AofLoad.TruncatedLogLoads | redis-6.0.5/src/aof.c:835-917 | for every prefix of a log, with aof-load-truncated exactly the commands wholly inside are processed, and the log is cut back to where they end, or before the MULTI when they end inside an open transaction |
| AofLoad.TruncatedPlainLogLoads | redis-6.0.5/src/aof.c:764-873 | without transactions exactly the commands wholly inside the prefix are run, and valid_up_to is where they end |
| AofLoad.StrictLoad | redis-6.0.5/src/aof.c:875-917 | without the option a log loads iff it ends at a command boundary outside a transaction |
| AofLoad.OpenTransaction | redis-6.0.5/src/aof.c:835-873 | the transaction open after a log begins with a MULTI, holds back all that follows, and what was run is what had been run before it |
| AofLoad.CutLogLoadsAgain | redis-6.0.5/src/aof.c:859-917 | the cut log loads again without complaint iff no transaction was open at the cut |
| AofLoad.CutInTransaction | redis-6.0.5/src/aof.c:859-917 | a MULTI and one byte of the next command: the first load cuts that byte off, and the log left does not load without the option |
| AofAppend.AppendedRunIff | redis-6.0.5/src/aof.c:835-873 | commands appended to a log run as they would alone iff no transaction is open before them |
| AofAppend.NewCommandsKeptIff | redis-6.0.5/src/aof.c:859-917 | after a load that cuts the log back, commands appended to it run at the next load iff the log was not cut inside a command of an open transaction |
| AofAppend.AppendedIsLost | redis-6.0.5/src/aof.c:859-917 | a MULTI, one byte of a command that is cut off, and a command appended: the next load runs nothing |
| AofLoad.NoPreamble | redis-6.0.5/src/aof.c:744-752 | an encoded log is never taken for one with an RDB preamble |
| AofFlush.AppendOnlyLog.Write | redis-6.0.5/src/aof.c:300-317 | a prefix of the data is appended to the file, of the returned length, or nothing on -1 |
| AofFlush.AppendOnlyLog.Postpones | redis-6.0.5/src/aof.c:343-387 | a flush is put off only for an fsync in progress, without force, and for less than two seconds |
| AofFlush.AppendOnlyLog.Flush | redis-6.0.5/src/aof.c:338-494 | for every outcome of write and ftruncate, file and buffer together are unchanged, the recorded size is the size of the file, and only the policy "always" exits |
| AofFlush.RunEvents | redis-6.0.5/src/aof.c:642-643 | over any run of feeds and flushes, file and buffer hold everything fed, in order |
| RewriteBuffer.Buffer.Append | redis-6.0.5/src/aof.c:125-169 | the bytes are added at the end, across blocks |
| RewriteBuffer.Buffer.SendDiff | redis-6.0.5/src/aof.c:95-122 | what is sent is taken from the front; nothing is sent once the child asked to stop |
| RewriteBuffer.Buffer.WriteAll | redis-6.0.5/src/aof.c:174-194 | success means that exactly the contents were written; otherwise a prefix was |
| RewriteBuffer.Buffer.Size | redis-6.0.5/src/aof.c:79-90 | the number of bytes in all blocks |
| AofFeed.Feeder.Feed | redis-6.0.5/src/aof.c:584-653 | file buffer and rewrite buffer get the same bytes: a SELECT when the DB changes, then the commands |
| AofRewrite.FeedReplays | redis-6.0.5/src/aof.c:584-600 | fed commands act on the DB they were issued for |
| AofRewrite.RunsKeepInv | redis-6.0.5/src/aof.c:95-194 | in every run bytes fed since the fork = child diff ++ pipe ++ buffer, and log and snapshot rebuild the dataset |
| AofRewrite.CommandKept | redis-6.0.5/src/aof.c:637-650 | serving a command keeps the invariant, with or without a child |
| AofRewrite.ForkKept | redis-6.0.5/src/aof.c:1593-1636 | forking keeps the invariant, the selected DB being forgotten |
| AofRewrite.MoveKept | redis-6.0.5/src/aof.c:1457-1476 | sending, receiving and the final read after the acknowledgement lose nothing |
| AofRewrite.CompleteKept | redis-6.0.5/src/aof.c:1683-1800 | the new file is the snapshot followed by exactly the commands fed since the fork |
| AofRewrite.LogRebuildsDataset | redis-6.0.5/src/aof.c:1593-1832 | in every run, whenever the log is on and outside a transaction, file and buffer load, MULTI and EXEC included, and what the loader runs rebuilds the live dataset |
| AofRewrite.RewriteLosesNothing | redis-6.0.5/src/aof.c:1683-1800 | in every run, when a rewrite completes the new file rebuilds the dataset of that moment |
| AofRewrite.CrashKeepsPrefix | redis-6.0.5/src/aof.c:338-494 | wherever the last write was cut the file alone loads, and gives the dataset after the whole commands in it, or after those before the MULTI of the transaction open there |
| AofRewrite.TransactionsReplay | redis-6.0.5/src/aof.c:835-873 | what the loader has run and queued, replayed, is the log replayed: queueing until EXEC changes no meaning |
| AofRewrite.SinceMeansSinceFork | redis-6.0.5/src/aof.c:1625-1632 | the commands since the fork start empty at the fork and grow by what every command writes |
| AofDataset.RewriteObject | redis-6.0.5/src/aof.c:950-1027 | the chunking loop declares in every command exactly as many arguments as it writes |
| AofDataset.WrittenIsEncoded | redis-6.0.5/src/aof.c:1126-1150 | the bytes written element by element are the encoding of commands of at most 64 elements, for one and two arguments per element |
| AofDataset.ReplayChunks | redis-6.0.5/src/aof.c:950-1027 | replaying the chunks is one command with all elements, order included |
| AofDataset.ObjectRebuilt | redis-6.0.5/src/aof.c:1347-1369 | the commands of a string, list, set or hash of any size rebuild it |
| AofDataset.DatasetRebuilt | redis-6.0.5/src/aof.c:1318-1393 | replaying what the child writes rebuilds the dataset, expire times included |
| AofDataset.DumpIsSnapshot | redis-6.0.5/src/aof.c:1400-1431 | what the child writes is a snapshot the rewrite theorems accept |
| AclUser.UserRecord.constructor | redis-6.0.5/src/acl.c:236-253 | a created user is the fresh user |
| AclUser.UserRecord.SetCommandBit | redis-6.0.5/src/acl.c:376-385 | a bit outside the bitmap is ignored; clearing one ends ALLCOMMANDS |
| AclUser.UserRecord.SetCategory | redis-6.0.5/src/acl.c:393-408 | exactly the commands of the category that are not of a module change |
| AclUser.UserRecord.AddAllowedSubcommand | redis-6.0.5/src/acl.c:630-657 | a subcommand is added unless it is there in some case |
| AclUser.UserRecord.SetUser | redis-6.0.5/src/acl.c:737-901 | outcome and state are those of the rule interpreter; a failing rule changes nothing; reset gives the fresh user |
| AclUser.UserRecord.CopyFrom | redis-6.0.5/src/acl.c:309-330 | the copy is equal, subcommand lists included |
| AclUser.UserRecord.CheckCommandPerm | redis-6.0.5/src/acl.c:1060-1131 | the loops compute the declared verdict |
| AclUser.UserRecord.CountCategoryBits | redis-6.0.5/src/acl.c:410-435 | the commands of a category with and without their bit |
| AclUser.UserRecord.DescribeCommandRules | redis-6.0.5/src/acl.c:443-535 | the rules found with the help of a fake user are those of the specification, and the final comparison of the bitmaps never fails |
| AclUser.UserRecord.DescribeUser | redis-6.0.5/src/acl.c:543-587 | flags, passwords, patterns and command rules in the order of the source |
| Acl.ApplyKeepsInv | redis-6.0.5/src/acl.c:737-901 | every successful rule keeps the invariant of users |
| Acl.PredictedBitmapMatches | redis-6.0.5/src/acl.c:516-533 | the predicted bitmap is the bitmap of the user: the panic is unreachable |
| Acl.RoundTrip | redis-6.0.5/src/acl.c:543-587 | the printed rules all apply to a fresh user and restore everything; only ALLCOMMANDS may change, and is then set iff all bits are |
| Acl.ReachableRoundTrip | redis-6.0.5/src/acl.c:443-587 | the round trip for every user reachable by successful rules |
| Acl.SameVerdicts | redis-6.0.5/src/acl.c:1060-1131 | a reloaded user gets the same verdict for every command id in the bitmap, arguments and keys |
| Acl.BeyondTheBitmap | redis-6.0.5/src/acl.c:358-362 | for ids beyond the bitmap the verdict changes iff the user held every bit without ALLCOMMANDS |
| Acl.FlagNotRegained | redis-6.0.5/src/acl.c:358-362 | after +@all -get +get a command beyond the bitmap is denied, and allowed once the user is printed and reloaded |
| AclFile.Registry.LoadFromFile | redis-6.0.5/src/acl.c:1253-1399 | an error leaves users and default user as they were; otherwise the users are exactly those of the file and the default user is the same record |
| AclFile.Registry.LoadLines | redis-6.0.5/src/acl.c:1279-1374 | errors are found iff some line is bad, and the new table is what good lines say |
| AclFile.Registry.Validate | redis-6.0.5/src/acl.c:1333-1348 | a line is refused iff its rules do not all apply to a fresh user |
| AclFile.Registry.ApplyLine | redis-6.0.5/src/acl.c:1358-1370 | the second application of validated rules cannot fail |
| Blocked.Scheduler.BlockForKeys | redis-6.0.5/src/blocked.c:556-597 | the client waits on each named key once, at the end of its list |
| Blocked.Scheduler.UnblockClient | redis-6.0.5/src/blocked.c:146-167 | the client leaves the lists of all its keys and is queued once; the assertions hold |
| Blocked.Scheduler.SignalKeyAsReady | redis-6.0.5/src/blocked.c:644-665 | a key somebody waits on is queued unless it is already |
| Blocked.Scheduler.ServeClient | redis-6.0.5/src/t_list.c:628-676 | the value goes to the client or to the target list, or the call fails on a target of another type |
| Blocked.Scheduler.ServeClientsBlockedOnListKey | redis-6.0.5/src/blocked.c:214-269 | the loop is the specified sequence of rounds, and never looks at an emptied list of waiters |
| Blocked.Scheduler.HandleClientsBlockedOnKeys | redis-6.0.5/src/blocked.c:474-527 | it terminates, no value is lost, duplicated or made up, and no client is left waiting for a list with elements |
| Blocked.UnblockKeepsIndex | redis-6.0.5/src/blocked.c:601-635 | clients and keys refer to each other consistently after an unblocking |
| Blocked.BlockKeepsInv | redis-6.0.5/src/blocked.c:556-597 | a client that blocks on empty keys keeps the invariant |
| Blocked.PushKeepsInv | redis-6.0.5/src/t_list.c:197-224 | a push of any values at head or tail keeps the invariant, because a list that appears is signaled |
| Blocked.ReplaceKeepsInv | redis-6.0.5/src/db.c:213-231 | deleting a key or giving it a value of another type keeps the invariant |
| Blocked.StoreKeepsInvIff | redis-6.0.5/src/db.c:245-255 | storing a whole list keeps the invariant iff it does not overwrite another type while a client waits for a list on a key that is not signaled |
| Blocked.NobodyTold | redis-6.0.5/src/db.c:213-231 | BLPOP, SET and SORT with STORE on one key leave a client waiting for a list that has an element |
| Blocked.ServeReachesAll | redis-6.0.5/src/blocked.c:222-259 | when the rounds are over the list is empty or nobody is left that waits for a list |
| Blocked.ServedInOrder | redis-6.0.5/src/blocked.c:222-259 | the clients that get a reply are the first of those waiting for a list, in the order they blocked; the others still stand in that order, and then the list is empty |
| Blocked.ServeFirstConserves | redis-6.0.5/src/blocked.c:237-256 | a popped value is delivered once, moved once, or put back |
| Blocked.ServeFirstReplies | redis-6.0.5/src/t_list.c:628-676 | every client that is served gets one reply |
| Blocked.HandleKeyKeeps | redis-6.0.5/src/blocked.c:485-522 | serving one ready key keeps the invariant, and signals new keys only if it unblocked somebody |
| Bits.SetBitAt | redis-6.0.5/src/bitops.c:209-222 | setting one bit of a string leaves all the others |
| Bitfield.SetUnsignedBitfield | redis-6.0.5/src/bitops.c:209-222 | the field holds the low bits of the value, and no other bit changes |
| Bitfield.GetUnsignedBitfield | redis-6.0.5/src/bitops.c:229-241 | the bits of the field, most significant first |
| Bitfield.GetSignedBitfield | redis-6.0.5/src/bitops.c:243-262 | the field in two's complement |
| Bitfield.SetThenGet | redis-6.0.5/src/bitops.c:209-241 | what was set is read back modulo 2^w |
| Bitfield.SetThenGetSigned | redis-6.0.5/src/bitops.c:224-262 | a signed value is read back as the number its low w bits stand for |
| Bitfield.SetLeavesOthers | redis-6.0.5/src/bitops.c:209-222 | disjoint fields read as before |
| Bitfield.IncrementIsExact | redis-6.0.5/src/bitops.c:288-375 | INCRBY stores the sum, wrapped, clamped or not at all, for every field value and every 64-bit increment |
| Bitfield.UnsignedSetIsExact | redis-6.0.5/src/bitops.c:288-323 | an unsigned SET is exact for the argument cast to 64 bits, so that a negative one saturates to the maximum |
| Bitfield.SignedSetIsExact | redis-6.0.5/src/bitops.c:325-375 | a signed SET is exact iff it does not saturate an argument at least 2^63 below the maximum |
| Bitfield.SaturatesUpwards | redis-6.0.5/src/bitops.c:325-351 | the smallest 64-bit number saturates an eight-bit field to 127 |
| Bitfield.GetField | redis-6.0.5/src/bitops.c:1102-1133 | reading through the nine-byte copy equals reading the zero-padded string |
| Bitfield.Execute | redis-6.0.5/src/bitops.c:1026-1100 | GET, SET and INCRBY store and reply what the overflow mode says, and a failed one changes nothing |
| Bitfield.ExecuteAll | redis-6.0.5/src/bitops.c:1025-1135 | each operation works on what the one before left, with the value stored and the reply of that operation |
| Bitfield.CommandLeavesOthers | redis-6.0.5/src/bitops.c:1025-1135 | after any number of operations a bit outside the written fields is what it was |
| Popcount.RedisPopcount | redis-6.0.5/src/bitops.c:40-92 | for every string and alignment the result is the number of one bits |
| Popcount.FoldIsInBytes | redis-6.0.5/src/bitops.c:65-79 | the three folding steps leave in each byte its number of ones |
| Popcount.FoldFits | redis-6.0.5/src/bitops.c:65-79 | on 32-bit words no step of the folding goes below zero or leaves 32 bits |
| Popcount.BlockFits | redis-6.0.5/src/bitops.c:65-86 | the sum of up to seven folded words stays within 32 bits |
| Popcount.BlockCount | redis-6.0.5/src/bitops.c:65-86 | up to seven folded words, added, multiplied and shifted, give the ones of their bytes |
| BitScan.RedisBitpos | redis-6.0.5/src/bitops.c:101-186 | the first matching bit of the zero-padded string for every string, alignment and bit, -1 only for a missing one; the panic is unreachable |
| BitOp.WordIsBytewise | redis-6.0.5/src/bitops.c:670-716 | a bitwise operation on words is the operation on their bytes |
| BitOp.Compute | redis-6.0.5/src/bitops.c:655-735 | with or without the fast path, the result is as long as the longest string and every byte is the operation over the zero-padded strings |

## Left out

- The other CRDTs (`t_rset.c`, `t_rzset.c`, `t_oset.c`, `t_ozset.c`), `vc_cmp` and causal delivery: other protocols; the remove-win framework does not use them.
- ReplicatedList.ListReplica.Prepare: the words null and readd are not oids here; an element of that name would be taken for a predecessor. Headers are a parameter, and in ListRun any element may be present or absent.
- The payload and the properties of list elements of `t_rwflist.c`, and `t_rwfset.c`: the header is the one proved here, the rest would only add easy members.
- Scores are real numbers: rounding of doubles is not modelled, so equal sums do not depend on the order of addition.
- RemoveWinElement.RwfElement.RemoveCheck: takes clocks of equal size, as all clocks of one server have; the source reads past the shorter one otherwise.
- 64-bit wrap-around of epochs, crash and restart of nodes, hard reset, takeover, handshakes, gossip, manual failover timing and replica migration.
- ClusterRun.ElectionSafety: the condition is exact for the invariant behind it (ClusterRun.RunsKeepInvExactly); a run that counts a late vote may still happen to have one winner.
- ClusterSlots.SlotTable.SetMaster: a replica that changes its master is not modelled, nor that it has no slots of its own; slots read from the configuration file are those of ClusterSlots.SlotTable.AddSlot.
- ClusterSlots.SlotTable.UpdateSlots: the master of a replica is taken to be known; bitmaps are sets of slots, and deleting the keys of dirty slots is left to the caller.
- ClusterSlots.SlotTable.AssignSlot: the new configEpoch it asks for is the one of ClusterNode.ClusterState.BumpWithoutConsensus.
- The slot table is kept in sequences that the methods reassign, not in an array shared by pointers.
- AofRewrite.LogRebuildsDataset: says nothing inside an open transaction, whose commands the loader holds back; AofLoad says what is loaded then.
- AofFeed.Feeder.Feed: the commands are those after EXPIRE, SETEX and SET EX were translated into SET and PEXPIREAT; the translation is not modelled.
- The RDB preamble, sorted sets, streams and module objects in rewritten files, fsync scheduling and logging.
- AofLoad.Load: negative argument lengths are taken as malformed; argument counts and lengths are not cut to machine integers.
- AofRewrite.MoveKept: the last read after the acknowledgement empties the pipe, as a non-blocking read until nothing is left does.
- AofDataset.DatasetRebuilt: keys never hold empty lists, sets or hashes, as the server deletes such keys.
- Rule text: rules are tokens, so a subcommand with a space in it, which a file would split, is not a case here.
- Acl.RoundTrip: the table of commands is fixed, with unique names and ids below the reserved bit.
- AclFile.Registry.LoadFromFile: reading and splitting the file, the text of errors and the closing of connections of removed users.
- Sorted set, stream and module clients in blocked.c are only rotated past; timeouts, propagation and keyspace notifications; one DB, with keys as numbers.
- Bitfield.Execute: widths from 1 to 63, because the source shifts by the width and that is undefined at 64; growing the string is done by the caller.
- Bitfield.SignedSetIsExact: the distance to the maximum, which overflows a signed integer there, is taken to wrap around; C leaves it undefined.
- Popcount.FoldIsInBytes: the lookup table of bits in a byte is taken to hold the number of ones; a mask is a function whose kept bits are proved.
- Parsing of the arguments of BITOP, BITFIELD, BITPOS and of CLUSTER and ACL commands.
