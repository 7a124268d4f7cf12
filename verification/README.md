# Verified models of the lab programs

Dafny models, with proofs, of the four parts of this repository that decide whether its
answers are right: the linearizability checker, the Raft log with its snapshots, the
replicated key/value store on top of it, and MapReduce. `dafny verify dfyconfig.toml`
checks everything.

Code that works on values is modelled by functions and datatypes. Code that changes
things in place is modelled in place: bitsets are arrays, list nodes are objects whose
`prev` and `next` fields are rewritten, `Raft`, `KVServer` and `Master` are classes, and
every loop of the source is a loop with invariants. Each such method is proved against a
function on values (`View() == OnAppend(old(View()), args)` and the like), and the theorems
about runs are about those functions.

## What is proved

**The checker** (`porcupine/`, `models/kv.go`). `History` defines linearizability: some
order of all operations that the model accepts and that puts no operation before one that
had returned when it was called. `CheckSingle.Check` is `checkSingle` with its linked list,
its stack, its bitset and its hash-bucketed cache. It terminates, follows no nil pointer,
answers true only for linearizable histories and, if it is not killed, false only for the
others. Three arguments carry this:

- `Links` and `NodeList`: lifting and unlifting are exact inverses under any nesting, so
  the list is always the history minus the operations on the stack.
- `Search`: a cached configuration either is on the stack or has failed completely. So
  skipping a cache hit loses no linearization, for any model whose `Equal` merges only
  states that no later step can tell apart.
- `Progress`: the stack and the place in the list, read as digits of a number, only go down.

`Locality` and `KvPartition` prove the promise of `Partition` for the key/value model in
both directions, including the construction of one global order from the orders of the
keys. `Checker` puts the pieces together for every order in which partitions finish and
for any timeout: the answer is Illegal exactly when a result that was read is bad, and Ok
exactly when all were read and are good. `Entries` and `Ties` say exactly which histories sorting by time treats right.

**Raft's log** (`raft/`). `RaftNode` has one function for each critical section,
`RaftServer` the class that is proved to follow them. `RaftCluster` proves for every run,
over a network that loses, repeats, delays and misdelivers messages, that logs keep
`logs[k].LogIndex == lastIncludedIndex + k`, that messages are contiguous, and that a crash
at any moment brings back the same persistent fields. `RaftReplies`, `RaftVotes`, `RaftAcks`
and `RaftCmdIndex` say over all peers, messages and runs what a reply means, which step takes
back a vote or lowers a term, that a leader commits only what enough servers acknowledged in
its term, and that command indexes count commands. `RaftCommit`, `RaftBackup` and
`RaftCompaction` are about the commit loop, fast backup and the invisibility of snapshots.
`RaftRounds` follows a leader and a follower through any number of rounds of AppendEntries
and InstallSnapshot and says exactly when the leader gets to the end of its log;
`RaftHeartbeat` says what the follower commits on the way.

**The key/value service** (`kvraft/`). `KvMachine` is the fold of the committed log with
the table of last requests. `KvSystem` proves that after every run of peers, channels,
servers, snapshots and crashes each server holds exactly the fold of the log up to its
`lastAppliedIndex` and that nothing is skipped, although a snapshot can move Raft's cursor
back. `KvCmdIndex` proves that no two entries applied share a command index and that no
context is closed twice. `KvSubmitted` proves that nothing is applied, and nobody waits for anything, that
Start did not take in an earlier step. `KvReplies` proves of the contexts in `cmdMap` that an
RPC that is woken answers its client exactly when the entry applied is its own request and
the copy of it that the server reads is filled in. `KvRuns` takes the calls of clients with
the replies of those RPCs and proves that these histories are linearizable, in every run, with
respect to the very model that the checker uses.

**MapReduce** (`mr/`, `main/mrsequential.go`). `MapReduce` compares the data that doMap
and doReduce move with the sequential program. `Master` has the handlers and the class.
`MrSystem` lets any number of workers ask, write, report twice, crash and time out late.
`MrRuns` proves what every run keeps, that when the master says the job is done the output
files hold the lines of the sequential program, that requests are answered with a task
whenever one waits, and that the job can always be finished without anybody who holds a task.

## Where the code does something else than expected

Each of these is a lemma with its exact condition or a concrete input.

- Sorting entries by time alone may put a return before a call of the same time, and then a
  linearizable history is called illegal (`Checker.TieRejects`). Sorting adds no order of its
  own exactly when there is no such tie (`Entries.NoTiesIsNeeded`), for given times the answer
  is safe exactly then (`Ties.NoTiesKeepsAnswer`), and the history is well formed exactly when
  operations return after they were called (`Entries.ProperIsNeeded`).
- With no partition and no timeout, `checkParallel` waits for ever
  (`Checker.EmptyHistoryBlocks`).
- A term conflict at the sentinel empties the log (`RaftCluster.AppendKeepsShape`). It is also
  the one message after which a compacted log differs from the other one by more than its
  snapshot (`RaftCompaction.SameAppends`).
- InstallSnapshot lowers `commitIndex`, a snapshot taken earlier is still accepted, and then
  the next commit may index before the log (`RaftCluster.LateSnapshotBreaks`; exactly when:
  `RaftCommit.FollowerReadsInside` and `RaftCommit.LeaderReadsInside`). So compaction is not
  invisible: a peer with such a snapshot panics where it would have committed, exactly as
  `RaftCompaction.SafeIff` says, and one entry earlier it sends the snapshot's own entry
  without its command (`RaftCompaction.SameAppends`).
- The commit loop may pass over an entry that could be committed, exactly when one of another
  term lies above it (`RaftCommit.CommitsGreatestIff`); with terms that never go down it does not.
- `(n + 1) / 2` servers are a majority only in clusters of odd size
  (`RaftCommit.QuorumsMeetIffOdd`).
- An AppendEntries of the same term takes back a vote, so a peer may vote for two candidates in
  one term (`RaftVotes.VotesTwice`; exactly which steps do: `RaftVotes.VoteTakenBackIff`), and a
  late rejection lowers the term (exactly when: `RaftVotes.TermFallsIff`).
- An entry may get the command index of another one, exactly when a message or a snapshot goes on
  from an entry that is not the sender's (`RaftCmdIndex.AlwaysCountsIff`,
  `RaftCmdIndex.UnmatchedRepeats`).
- A leader with entries whose snapshot is older than the follower's, or that has none, and that
  asks about an entry inside the follower's snapshot, is rejected for ever
  (`RaftRounds.Livelock`, exactly then: `RaftRounds.RoundsEndIff`).
- A leader may stop sending although the logs differ, exactly when an entry of the follower with
  the term of the leader's last entry is at another place (`RaftBackup.ReplicateSyncs`,
  `RaftBackup.IncoherentGoesIdle`). A heartbeat then commits the follower's own entries
  unseen (`RaftHeartbeat.HeartbeatCommitsForeign`, `RaftHeartbeat.IncoherentCommitsForeign`).
- A request that arrives after a later one of the same client resets the table, and a
  repeat is then applied again (`KvMachine.OutOfOrderAppliesTwice`). Every write is carried out
  once exactly when, at each write, the number of the client's previous request is smaller if
  and only if the write is not a repeat (`KvMachine.OnceIffTold`).
- A MapReduce job ends only if some input yields a pair (`MrRuns.JobEndsIff`), and an input
  named twice has one task only (`MrRuns.OneTaskPerInput`).
- The comment on `match` in `porcupine/checker.go:59` says that a node without a match is a
  call. The code makes it a return, and so does the model.
- The comment at `mr/worker.go:173` counts buckets from 1 and that at `mr/worker.go:248`
  output files from 0. The code does both, and so does the model.

## Model

| member | source | states |
|---|---|---|
| Bitset.NewBitset | porcupine/bitset.go:10-17 | a slice of ceil(bits / 64) words that holds no position |
| Bitset.Clone | porcupine/bitset.go:19-23 | a new slice with the same words, so later changes to one leave the other alone |
| Bitset.Set | porcupine/bitset.go:29-33 | the set of positions gains exactly `pos`, across word boundaries |
| Bitset.Clear | porcupine/bitset.go:35-39 | the set of positions loses exactly `pos` |
| Bitset.Get | porcupine/bitset.go:41-44 | true exactly when `pos` is in the set |
| Bitset.Popcnt | porcupine/bitset.go:46-52 | the loop over words returns the number of elements of the set |
| Bitset.PopcntCountsMembers | porcupine/bitset.go:46-52 | bit counts summed over words equal the cardinality of the set of positions |
| Bitset.Hash | porcupine/bitset.go:54-60 | the bucket depends on the words only |
| Bitset.HashTells | porcupine/bitset.go:54-60 | sets of one size that differ in one word only fall into different buckets |
| Bitset.Equals | porcupine/bitset.go:62-72 | for slices of one length, true exactly when the two hold the same set |
| Bitset.WordsDiffer | porcupine/bitset.go:62-72 | one word that differs means that the sets differ, so comparing words is complete |
| Links.RemoveKeepsChain | porcupine/checker.go:154-162 | unlinking a node leaves a doubly linked list, in order, of exactly the other nodes |
| Links.InsertUndoesRemove | porcupine/checker.go:164-172 | a node keeps its own links while it is out, so relinking restores every field of the list |
| Links.LiftKeepsChain | porcupine/checker.go:154-162 | lifting a call and its return follows no nil pointer and leaves the list of the other nodes |
| Links.UnliftUndoesLift | porcupine/checker.go:154-172 | unlift after lift gives back every prev and next field |
| Links.NestedLiftsRestore | porcupine/checker.go:154-172 | every properly nested sequence of lifts and unlifts, of any depth and length, is possible and restores all links |
| Links.LiftAllIsChain | porcupine/checker.go:198-202 | whatever operations are on the stack, the list is the original history minus exactly their calls and returns |
| Links.UnliftTop | porcupine/checker.go:230-236 | unlifting the top of the stack gives the links as they were before it was lifted |
| NodeList.LiftNode | porcupine/checker.go:154-162 | the pointer assignments change the heap as Lift changes the links |
| NodeList.UnliftNode | porcupine/checker.go:164-172 | the pointer assignments change the heap as Unlift changes the links |
| NodeList.InsertBefore | porcupine/checker.go:65-76 | the four fields written, with no mark or no node before the mark included; all other fields unchanged |
| NodeList.Length | porcupine/checker.go:78-85 | the number of nodes of the list |
| NodeList.MakeLinkedEntries | porcupine/checker.go:116-133 | a list of fresh nodes in history order, each call pointing to the node of its own return |
| NodeList.MakeList | porcupine/checker.go:174-184 | the head followed by a node for each entry, and n is the number of operations |
| Search.CallIsEnabled | porcupine/checker.go:189-191 | a call that the walk meets may come next: nothing left in the list returned before it |
| Search.Advance | porcupine/checker.go:203-208 | stepping over a call that is refused or leads to a cached configuration keeps the search invariant |
| Search.Push | porcupine/checker.go:195-202 | taking a call and starting again from the head keeps the search invariant, with the new configuration on the stack |
| Search.FinishTop | porcupine/checker.go:209-212 | when the walk meets a return, every operation that could come next in the top configuration has been tried |
| Search.PopAccounted | porcupine/checker.go:230-236 | a cached configuration is on the stack or has failed completely; backtracking moves one from the first kind to the second |
| Search.Pop | porcupine/checker.go:230-236 | backtracking keeps the search invariant |
| Search.EverythingSeen | porcupine/checker.go:195-205 | with an empty stack, every configuration that any legal order reaches is cached, up to equal states: pruning loses nothing |
| Search.HitHasFailed | porcupine/checker.go:195-205 | a cached configuration larger than the stack is not on it, and no complete order of the operations goes through it or through an equal state, so skipping it loses nothing |
| Search.GiveUp | porcupine/checker.go:210-212 | when the search gives up there is no linearization, and for each operation the longest linearizable prefix with it is recorded |
| Search.Success | porcupine/checker.go:239-247 | when the list is empty, the stack is a linearization of all operations |
| Progress.AdvanceDecreases | porcupine/checker.go:203-208 | stepping over a call decreases the number whose digits are the stack and the place in the list |
| Progress.PushDecreases | porcupine/checker.go:198-202 | taking a call decreases it |
| Progress.PopDecreases | porcupine/checker.go:230-236 | backtracking decreases it, so the search ends whatever the model and the cache |
| CheckSingle.CacheContains | porcupine/checker.go:140-147 | looking in one hash bucket finds a configuration exactly when some bucket holds it |
| CheckSingle.AddToCache | porcupine/checker.go:196-197 | entries stay in the bucket of their hash, and the cache holds one configuration more |
| CheckSingle.StackIds | porcupine/checker.go:240-243 | the ids of the stack in order |
| CheckSingle.RecordLongest | porcupine/checker.go:214-229 | each operation on the stack has a record at least as long as the stack, and no record gets shorter |
| CheckSingle.FromCall | porcupine/checker.go:203-208 | the node after a call in the list is never nil: the return of that call is still ahead |
| CheckSingle.CacheHit | porcupine/checker.go:195-205 | a cache hit means that the step leads to a configuration already seen |
| CheckSingle.StepOver | porcupine/checker.go:203-208 | entry = entry.next keeps the loop invariant and makes progress |
| CheckSingle.Take | porcupine/checker.go:195-202 | stack, state, bitset, cache, list and entry change together: the loop invariant is kept and progress made |
| CheckSingle.Backtrack | porcupine/checker.go:230-236 | stack, state, bitset, list and entry go back together: the loop invariant is kept and progress made |
| CheckSingle.TryCall | porcupine/checker.go:189-208 | one iteration at a call keeps the loop invariant and makes progress |
| CheckSingle.NothingLeft | porcupine/checker.go:210-212 | a return met with an empty stack means not linearizable, and the records are the longest |
| CheckSingle.Check | porcupine/checker.go:174-248 | terminates; true only if linearizable, false only if not linearizable or the last iteration read the kill flag as set; all records are linearizable prefixes, and on a false that was not killed the longest for each operation |
| Sorting.Sort | porcupine/checker.go:53 | the contract of sort.Sort: a permutation in which no element is less than an earlier one; callers rely on nothing else |
| Sorting.LessAt | models/kv.go:26-30 | strings are compared by the first place where they differ, and a proper prefix is less |
| Entries.MakeEntries | porcupine/checker.go:43-55 | for every history, its entries in some order sorted by time; if operations return after they were called, a well-formed history in which whatever preceded still precedes, and without ties nothing else |
| Entries.EntriesDecide | porcupine/checker.go:43-55 | linearizable entries mean a linearizable history, and conversely if sorting added no order |
| Entries.ProperIsNeeded | porcupine/checker.go:39-41 | every order that sorting by time may leave is well formed exactly when every operation returns after it was called |
| Entries.NoTiesIsNeeded | porcupine/checker.go:39-41 | none of them puts overlapping operations in order exactly when no call is at the time of a return |
| Ties.TiedIsLinearizable | porcupine/checker.go:39-41 | for any times with a call at the time of a return there are operations that are linearizable |
| Ties.TiedEntriesFail | porcupine/checker.go:39-41 | but not as entries, once sorting has put that return first |
| Ties.NoTiesKeepsAnswer | porcupine/checker.go:39-41 | so for given times, sorting turns no linearizable history into one that is not exactly when there is no tie |
| Entries.Renumber | porcupine/checker.go:87-101 | ids become 0, 1, 2, ... one to one, and everything else of an event stays |
| Entries.TwoEventsEach | porcupine/checker.go:87-101 | paired events are twice as many as ids |
| Entries.ConvertEntries | porcupine/checker.go:103-114 | entry i has the kind, value and id of event i, and time i |
| Entries.EventsWellFormed | porcupine/checker.go:87-114 | paired events, renumbered and converted, are a well-formed history with ids 0..n-1 |
| Entries.WellFormedIffPaired | porcupine/checker.go:87-114 | events become a well-formed history exactly when every id is called once and later returned once |
| Entries.EventsKeepOperations | porcupine/checker.go:87-114 | the operation numbered for an event has its value and its place |
| KvModel.ShallowEqualityIsSound | porcupine/model.go:59-61 | == on states may be used to prune, for the model of one key and for the whole store |
| Locality.StoreRunIsKeyRuns | models/kv.go:37-56 | an order is accepted by the whole store exactly when its part on every key is accepted by the model of one key, and the values agree |
| Locality.WholeGivesKeys | porcupine/model.go:28-31 | the part of a linearization on a key is a legal order of exactly the operations on that key that respects time |
| Locality.PointsFit | porcupine/model.go:28-31 | along an order that respects time, operations can be given points between call and return that never go back |
| Locality.MergeAscending | porcupine/model.go:28-31 | merging two orders by those points gives an order that follows the points |
| Locality.MergeOnKey | porcupine/model.go:28-31 | merging changes nothing on a key that only one of the two orders has |
| Locality.MergedRespectsTime | porcupine/model.go:28-31 | the one order built from the orders of all keys respects time |
| Locality.KeysGiveWhole | porcupine/model.go:28-31 | from a legal order for each key, one legal order of the whole history |
| Locality.WholeIffKeys | porcupine/model.go:28-31 | a history is linearizable against the map from keys to strings exactly when for every key its operations are |
| KvPartition.Partition | models/kv.go:20-36 | each key of the history once, in order, with exactly its operations in their order |
| KvPartition.SubHistoryDecides | models/kv.go:20-36 | a sub-history is linearizable exactly when the operations on its key are, in place in the whole history |
| KvPartition.PartitionDecides | porcupine/model.go:28-31 | the promise of Partition: the history is linearizable against the whole store exactly when every partition is linearizable against one string |
| Checker.CheckParallel | porcupine/checker.go:269-348 | for every order in which results arrive and any timeout: Illegal exactly when a result that is read is bad, even if the timer fires later; Ok exactly when there are partitions, all results are read and all are good; Unknown only on a timeout; all partial linearizations replay, and for every partition read they hold the longest prefix with each operation |
| Checker.AllArrived | porcupine/checker.go:297-299 | as many results as partitions, all true, cover every partition |
| Checker.WaitForAll | porcupine/checker.go:306-336 | whatever the other goroutines saw of the kill flag, all partial linearizations collected replay; for every partition whose result had arrived, or whose search was never killed, they hold the longest prefix with each operation |
| Checker.TellsLinearization | porcupine/checker.go:314-333 | so a partition that is linearizable and holds an operation has a full linearization among them |
| Checker.VerdictIff | porcupine/checker.go:286-346 | the select loop, step by step, ends with the same verdict, and without info it is left at the first bad result |
| Checker.EmptyHistoryBlocks | porcupine/checker.go:286-305 | the select loop can take a step exactly when there is a partition or a timer, and every step leaves it or brings it nearer to its end; with neither it waits for ever |
| Checker.LegalIffEnds | porcupine/checker.go:286-305 | the schedules assumed of CheckParallel are exactly those that take the loop to its end whatever the results are |
| Checker.CheckKv | porcupine/checker.go:360-368 | CheckOperations with KvModel: Ok means that all results were read and the history is linearizable against the whole store, and a bad key whose result is read is never missed; if no two operations on one key are tied, Illegal exactly when there is such a key and Ok exactly in the first case |
| Checker.CheckOperations | porcupine/checker.go:360-368 | the same for any model without a partition function; Unknown exactly when the timer came before the result |
| Checker.CheckEvents | porcupine/checker.go:350-358 | the answer for events is about the operations they pair up to, timed by their places, with no proviso about ties: Ok and Illegal exactly as they are linearizable or not, once the result is read |
| Checker.ReplayRecorded | porcupine/visualization.go:62-70 | the replay of a recorded order never meets a refused step, so the panic is unreachable |
| Checker.TieRejects | porcupine/checker.go:39-41 | a linearizable history with a tie whose entries, in an order that sorting may leave, are not linearizable |
| RaftServer.Persister.SaveRaftState | raft/persister.go:33-37 | the saved fields change and the snapshot does not |
| RaftServer.Persister.SaveStateAndSnapshot | raft/persister.go:53-58 | both change together |
| RaftServer.Persister.ReadRaftState | raft/persister.go:39-43 | what was saved last |
| RaftServer.Persister.ReadSnapshot | raft/persister.go:60-64 | what was saved last |
| RaftServer.Raft.Make | raft/raft.go:1227-1277 | the peer that Restart describes: the saved fields, a sentinel if there is no log, the snapshot sent to the application |
| RaftServer.Raft.ReadPersist | raft/raft.go:234-283 | the six persistent fields are those saved |
| RaftServer.Raft.PersistState | raft/raft.go:189-204 | what is stored is the current value of the persistent fields |
| RaftServer.Raft.BecomeFollower | raft/raft.go:135-145 | term, vote, role and leader state, and all of it saved |
| RaftServer.Raft.BecomeLeader | raft/raft.go:149-184 | nextIndexs and matchIndexs filled by the loop, and a no-op of the current term appended and saved |
| RaftServer.Raft.Start | raft/raft.go:984-1019 | the entry appended, and the triple returned, in all three cases |
| RaftServer.Raft.FindFirstOfTerm | raft/raft.go:508-513 | the loop finds the first entry of the term after the sentinel, or leaves 0 |
| RaftServer.Raft.AdvanceCommit | raft/raft.go:533-553 | the loop moves commitIndex to the smaller of leaderCommit and the last index, never down, and sends what Emit lists, whenever its reads are inside the log |
| RaftServer.Raft.AppendEntries | raft/raft.go:450-555 | state, reply and messages are those of OnAppend in every branch |
| RaftServer.Raft.InstallSnapshotToApplication | raft/raft.go:1200-1216 | the snapshot is sent, and the cursor is put at its index |
| RaftServer.Raft.TakeSnapshot | raft/raft.go:1165-1197 | the log from the index on, its first entry without its command, saved together with the snapshot; nothing for an old index |
| RaftServer.Raft.CutLog | raft/raft.go:1085-1116 | the log kept after a snapshot: its tail if the terms agree at the index, otherwise a sentinel only |
| RaftServer.Raft.InstallSnapshot | raft/raft.go:1062-1128 | state, reply and messages are those of OnInstall in every branch |
| RaftServer.Raft.PrepareAppend | raft/raft.go:764-791 | the message NextAppend describes, or none when the entries are compacted |
| RaftServer.Raft.CountHolders | raft/raft.go:822-830 | counting from 2 over the other servers gives the number of servers that hold the entry |
| RaftServer.Raft.EmitUpTo | raft/raft.go:834-847 | the entries that are not internal are sent in order |
| RaftServer.Raft.TryCommit | raft/raft.go:817-856 | the loop ends at CommitPoint, and what it passes is sent |
| RaftServer.Raft.BackUpNextIndex | raft/raft.go:888-905 | the scan leaves nextIndex at NextAfterReject |
| RaftServer.Raft.HandleAppendReply | raft/raft.go:803-912 | state and messages are those of OnAppendReply in every branch |
| RaftServer.Raft.HandleInstallReply | raft/raft.go:940-961 | state is that of OnInstallReply in every branch |
| RaftReplies.SuccessMeansHeld | raft/raft.go:450-530 | for every peer and message, success exactly when the message is accepted, and then every entry sent is in the log at its index; the reply carries the peer's new term |
| RaftReplies.NewLeaderSends | raft/raft.go:149-171 | the first message of a new leader to everybody is its no-op, after the last entry that it had |
| RaftReplies.OlderLeaderStepsDown | raft/raft.go:461-466 | a leader of an older term is refused, changes nothing, and becomes a follower in the peer's term that commits nothing |
| RaftReplies.OlderInstallerStepsDown | raft/raft.go:1066-1071 | the same for a snapshot |
| RaftReplies.OtherTermIgnored | raft/raft.go:808-811 | a reply to a message of another term changes nothing, unless it names a later term than the message's |
| RaftReplies.InstallAnswered | raft/raft.go:1066-1128 | a snapshot of a current term is answered with a term that leaves its sender alone; the sentinel is internal, and the snapshot goes to the application |
| RaftVotes.VoteTakenBackIff | raft/raft.go:135-145 | a vote is changed within its term exactly by a step that makes the peer a follower again in that term, and is then taken back |
| RaftVotes.GrantedOnce | raft/raft.go:345-356 | a vote goes to a candidate exactly when there is none for another, and is saved |
| RaftVotes.VotesTwice | raft/raft.go:456-458 | so two votes in one term are possible: a vote, an AppendEntries of the same term, another vote |
| RaftVotes.TermFallsIff | raft/raft.go:874-880 | a term goes down exactly when a late rejection names a term between the message's and the peer's own; a new term comes with no vote but the candidate's own, and nobody leads in it without winning |
| RaftVotes.BehindIsOrder | raft/raft.go:338 | being behind is a strict order on logs, and two logs are equal in it exactly when they end with the same term and index |
| RaftVotes.LongerIsNotBehind | raft/raft.go:338 | a candidate whose log goes on from the voter's is not behind, and one that lacks its end is |
| RaftAcks.MatchIsAcked | raft/raft.go:149-159 | in every run, what a leader holds in matchIndexs for a server, that server acknowledged to it in this term, by append or snapshot |
| RaftAcks.CommittedIsAcked | raft/raft.go:803-857 | in every run, a leader moves commitIndex only to an entry of its own term that (n + 1) / 2 servers, itself among them, acknowledged in this term |
| RaftCmdIndex.CountedRises | raft/raft.go:1001 | along a log that counts, command indexes never fall, and at an entry that is not internal they are above all before |
| RaftCmdIndex.AppendCounts | raft/raft.go:494-501 | AppendEntries keeps a log counting exactly when the entry it goes on from has the sender's command index |
| RaftCmdIndex.InstallCounts | raft/raft.go:1085-1122 | InstallSnapshot does exactly when the entry that becomes the sentinel has the snapshot's command index |
| RaftCmdIndex.SnapshotCounts | raft/raft.go:1178-1186 | TakeSnapshot always does, and the sentinel has the command index of its entry |
| RaftCmdIndex.StartsAbove | raft/raft.go:984-1019 | a leader's Start returns an index above that of every entry held, anybody else's changes nothing; a no-op keeps the last index |
| RaftCmdIndex.RestartCounts | raft/raft.go:1227-1268 | a restart brings back the saved log, or a sentinel that stands for the snapshot's last entry, and a first start is at term 0 with nothing |
| RaftCmdIndex.SentCounts | raft/raft.go:782-787 | the entries of a message count on from the sender's entry before them |
| RaftCmdIndex.AlwaysCountsIff | raft/raft.go:1001 | in every run, all logs and messages count in every state exactly when every message and snapshot went on from an entry with the sender's command index |
| RaftCmdIndex.UnmatchedRepeats | raft/raft.go:494-501 | an input where it did not, and two commands get one index |
| RaftCommit.CommitsReached | raft/raft.go:817-856 | for any log, the loop commits the greatest eligible index above which, up to the acknowledged one, everything is of the current term |
| RaftCommit.CommitsGreatestIff | raft/raft.go:817-856 | the greatest eligible index is committed exactly when no entry of another term lies above it |
| RaftCommit.CommitsGreatest | raft/raft.go:817-856 | with terms that do not go down, commitIndex moves to the greatest index that is new, acknowledged, of the current term and held by (n + 1) / 2 servers, or stays |
| RaftCommit.FollowerReadsInside | raft/raft.go:533-538 | the commit loop of a follower reads outside its log exactly when there is something to commit and its cursor is more than one entry below the sentinel |
| RaftCommit.LeaderReadsInside | raft/raft.go:817-855 | the same for the commit loop of a leader: exactly when its cursor is that low and no entry of another term is met before a quorum |
| RaftCommit.EmitsExactly | raft/raft.go:834-847 | the messages are exactly the entries in between that are not internal, each once, in order of index |
| RaftCommit.QuorumsMeetIffOdd | raft/raft.go:831 | any two sets of (n + 1) / 2 servers meet exactly when n is odd |
| RaftBackup.MessageIsNextAppend | raft/raft.go:775-790 | the exchange below uses the messages that doAppendEntriesRPC builds |
| RaftBackup.FirstOfTermIs | raft/raft.go:508-513 | Xindex is the first entry of the conflicting term after the sentinel: all from there to the conflict have the term, and none before |
| RaftBackup.RejectionDecreases | raft/raft.go:480-530 | a rejection that is not at the sentinel makes (follower's last index, nextIndex) smaller exactly when the entry asked about is not below the follower's snapshot or nextIndex is above 1 |
| RaftBackup.StaysReady | raft/raft.go:881-908 | after a rejection the follower's log is a non-empty prefix of what it was, and the two are ready for the next exchange unless nextIndex left the leader's log |
| RaftBackup.SuccessSyncs | raft/raft.go:489-503 | given Log Matching, an accepted append leaves the logs ending at the same index and equal wherever both hold an entry |
| RaftBackup.RejectionOvershoots | raft/raft.go:888-905 | one rejection sends nextIndex past the leader's log exactly when the conflicting entry has the term of the leader's last entry |
| RaftBackup.ReplicateSyncs | raft/raft.go:764-913 | the whole exchange, of any length, leaves the leader silent with logs that differ exactly when some entry of the follower is misplaced; otherwise it ends with equal logs or on the snapshot path |
| RaftBackup.CoherentNeverIdle | raft/raft.go:888-905 | where entries of one term are the same entries in both logs, the leader never falls silent |
| RaftBackup.IncoherentGoesIdle | raft/raft.go:892-895 | Log Matching alone does not exclude it: two logs from which the leader falls silent |
| RaftRounds.InstallRound | raft/raft.go:916-961 | a round on the snapshot path is NextInstall, OnInstall and OnInstallReply |
| RaftRounds.AppendRound | raft/raft.go:764-913 | a round on the append path is NextAppend, OnAppend and OnAppendReply, and none of them panics |
| RaftRounds.Livelock | raft/raft.go:741-760 | a leader that holds entries, asks inside the follower's snapshot and has an older one itself never gets further, in any number of rounds, and nothing of the follower's log changes |
| RaftRounds.RoundsEnd | raft/raft.go:741-760 | otherwise the rounds get to the end of the leader's log, and then, given Log Matching and a leader that holds entries, the logs are the same exactly when no entry was misplaced |
| RaftRounds.RoundsEndIff | raft/raft.go:741-760 | so the rounds end exactly when the leader asks at or above the follower's snapshot, or its own is at least as new, or it holds nothing besides its sentinel |
| RaftHeartbeat.HeartbeatCommitsForeign | raft/raft.go:533-553 | a message without entries commits an entry that is not the leader's exactly when the follower holds one up to LeaderCommit |
| RaftHeartbeat.RoundsCommitOwn | raft/raft.go:741-913 | given Log Matching and coherent logs, no round of any kind ever commits an entry that is not the leader's |
| RaftHeartbeat.IncoherentCommitsForeign | raft/raft.go:480-533 | without coherence it may: two logs with which the second round does |
| RaftCluster.AppendKeepsShape | raft/raft.go:450-555 | AppendEntries keeps the log's shape and the saved state exactly when the term conflict is not at the sentinel |
| RaftCluster.InstallKeepsShape | raft/raft.go:1062-1128 | InstallSnapshot always keeps them |
| RaftCluster.SnapshotKeepsShape | raft/raft.go:1165-1197 | TakeSnapshot keeps them at every index of the log; the cursor stays at or above the snapshot exactly when the index is committed |
| RaftCluster.LateSnapshotBreaks | raft/raft.go:1209-1210 | InstallSnapshot lowers commitIndex; a snapshot taken before it is still accepted, and the next commit reads outside the log exactly when it commits anything and the snapshot is more than one entry ahead |
| RaftCluster.ReplyKeepsShape | raft/raft.go:803-912 | the handling of a reply keeps them |
| RaftCluster.SentIsContiguous | raft/raft.go:782-787 | entries sent follow PrevLogIndex one by one |
| RaftCluster.NextKeepsGood | raft/raft.go:163-171 | every action of every peer keeps all logs in shape, all saved state equal to the fields and all messages contiguous |
| RaftCluster.ReachableIsGood | raft/raft.go:1256-1271 | so it is in every reachable state, over lost, repeated and reordered messages; a crash there brings back the same term, vote, log and snapshot fields |
| RaftCompaction.CompactedLog | raft/raft.go:1165-1193 | the compacted log holds exactly the later entries, unchanged, and the snapshot entry as sentinel |
| RaftCompaction.SameVotes | raft/raft.go:338 | a candidate's log is judged the same after compaction |
| RaftCompaction.SameMessages | raft/raft.go:775-790 | a follower whose next entry is still held is sent the same message |
| RaftCompaction.CommitCommutes | raft/raft.go:533-553 | at any index of the log, committing and compacting commute unless the compacted peer reads before its log; the messages to the application are the same exactly when the snapshot's own entry is not sent without its command |
| RaftCompaction.SafeIff | raft/raft.go:533-538 | a message that the peer can take makes the compacted one panic exactly when it commits something and the snapshot is more than one entry above commitIndex |
| RaftCompaction.CommittedIsSafe | raft/raft.go:533-538 | at a committed index neither that nor a lost command happens |
| RaftCompaction.SameAppends | raft/raft.go:480-530 | at any index of the log, for PrevLogIndex at or above it and when both can take the message: AppendEntries commutes with compaction, but for Xindex, exactly when the message does not contradict the snapshot's own entry, and the messages to the application are the same exactly when that entry is not sent without its command |
| RaftCompaction.AppendsAlike | raft/raft.go:480-530 | in every such case the answer, the cursor and the entries after the snapshot are the same; only Xindex may differ |
| RaftCompaction.HintMoves | raft/raft.go:508-513 | how Xindex differs: it is never before the first entry still held |
| KvMachine.FoldSkipsQuiet | kvraft/server.go:226-233 | internal entries, which are never delivered, change nothing |
| KvMachine.ExecReadsCore | kvraft/server.go:237-275 | applying does not look at the index and term that the handlers write into a request after handing it over, so it does not matter whether a copy has them |
| KvMachine.KeysOnlyGrow | kvraft/server.go:237-263 | no entry removes a key from the store or the table |
| KvMachine.MergeInstalls | kvraft/server.go:300-312 | decoding a snapshot over the state of an earlier prefix of the log gives exactly the snapshot |
| KvMachine.MergeOverLaterKeeps | kvraft/server.go:304-309 | over a later state it does not |
| KvMachine.TableIsLatest | kvraft/server.go:238-239 | the table holds, for exactly the clients in the log, the number of their latest request |
| KvMachine.FreshIffNotRepeated | kvraft/server.go:250-251 | for every log, the table's verdict on a request is that of looking through the whole log exactly when the number of the client's previous request tells: it is smaller if and only if the request did not occur before |
| KvMachine.InOrderIsTold | kvraft/server.go:250-251 | numbers that never go down are enough |
| KvMachine.OnceIffTold | kvraft/server.go:237-268 | every write is carried out once, at its first occurrence, exactly when this holds at every write |
| KvMachine.ExactlyOnce | kvraft/server.go:237-268 | then the store is what the log without repeated writes gives, applied with no table |
| KvMachine.OutOfOrderAppliesTwice | kvraft/server.go:239 | a log where it does not hold and a write is applied twice |
| KvLinear.SameStep | models/kv.go:42-56 | what the server does with a request and what the model of the checker does keep equal values on every key |
| KvLinear.ServedRuns | kvraft/server.go:250-275 | in log order, reads answered and writes not repeated are a legal run of the store, ending in the replicas' values |
| KvLinear.LogOrderLinearizes | kvraft/server.go:216-287 | if no request is ahead in the log of one answered before it was made, the log is a linearization of the clients' history |
| KvLinear.EachKeyRuns | models/kv.go:37-56 | on each key it is a legal run of KvModel.Step from Init, with no key read as the empty string |
| KvSystem.DeliverDefined | kvraft/server.go:235 | in every good state the type assertion on a command to be applied succeeds |
| KvSystem.DeliverApplies | kvraft/server.go:219-314 | a message applied, replayed or ignored leaves the server at the fold of the log, with nothing skipped in what is still to come |
| KvSystem.FeedsEmit | raft/raft.go:533-552 | sending newly committed entries moves the cursor up and skips nothing |
| KvSystem.FeedsSnapshot | raft/raft.go:1200-1216 | sending a snapshot may move the cursor back, and still nothing is skipped |
| KvSystem.CrashFeeds | raft/raft.go:1256-1271 | an empty server after a restart is brought back by the stored snapshot |
| KvSystem.HandOverKeeps | kvraft/server.go:339-342 | a state captured earlier and handed over later is still the state at its index |
| KvSystem.StepKeeps | kvraft/server.go:79-345 | every step of peers, channels, servers, handlers, waiting RPCs, snapshots and crashes keeps the system invariant |
| KvSystem.ReplicasFollowLog | kvraft/server.go:216-345 | after every run, every store and table is the fold of the committed log up to lastAppliedIndex, no entry up to Raft's cursor is skipped, and the stored snapshot is the state at the stored index |
| KvSystem.ReplicasAgree | kvraft/server.go:216-316 | servers that applied up to the same index, at whatever times, hold the same state |
| KvSystem.ReplicasApplyOnce | kvraft/server.go:237-268 | in every run, across replays, snapshots, restores and crashes, every store is the log without repeated writes, applied with no table, where the writes it has applied are told from repeats |
| KvSystem.NoDoubleClose | kvraft/server.go:280-285 | in every run, as far as command indexes rise along the committed log, no channel of a waiting RPC is closed twice |
| KvCmdIndex.ReachableCounts | raft/raft.go:1001 | in every run whose steps go on from matching entries, every log, message, sentinel and snapshot has the command index of the committed log, which counts as far as anybody has got |
| KvCmdIndex.AppliedRises | kvraft/server.go:237 | so the entries applied have rising command indexes |
| KvCmdIndex.NeverClosedTwice | kvraft/server.go:280-285 | and no channel of a waiting RPC is ever closed twice |
| KvSubmitted.StepKnown | kvraft/server.go:93 | every step keeps it that all commands in logs, messages, handlers and waiting RPCs, and all committed ones that anybody has got to, were taken by Start, with the term and the index of their entry |
| KvSubmitted.AppliedWasSubmitted | kvraft/server.go:93 | in every run, what a server has applied was taken by Start in an earlier step, with the term and the index of its entry |
| KvSubmitted.WaitingWasSubmitted | kvraft/server.go:93-110 | in every run, an RPC that waits under a command index waits for a request that Start took with that index, in a term above 0 |
| KvReplies.WakesAt | kvraft/server.go:219-285 | the step that wakes an RPC applies the next entry of the committed log to the state that the log before it gives |
| KvReplies.CopyTerm | kvraft/server.go:93 | the term that the server reads in its copy is that of the entry, or 0 if the copy was made before the handler filled it in |
| KvReplies.AnswersAreOwn | kvraft/server.go:237-285 | the RPC answers its client exactly when the entry applied is its own request and the copy is filled in, and then with the answer of that entry, ErrNoKey for a key that is not there; otherwise it says ErrWrongLeader |
| KvRuns.AnsweredThere | kvraft/server.go:127-143 | a call that got an answer, a write included, has its request in the committed log, some server had applied it by then, and the answer is the one of that entry |
| KvRuns.RunIsConsistent | kvraft/server.go:79-145 | in every run, no request is ahead in the log of one answered before it was made |
| KvRuns.TookEffective | kvraft/server.go:237-268 | the calls that the log puts in order are exactly those answered and the writes among its entries, each once |
| KvRuns.ServiceIsLinearizable | kvraft/server.go:79-287 | in every run there is an order of all calls that were answered, and of some writes that were not, that respects time and in which the store gives every client the answer it got |
| KvRuns.HistoryIsLinearizable | kvraft/client.go:72-186 | the history of these calls, listed in any order, is linearizable, and each of them ends after it begins |
| KvRuns.CheckServed | kvraft/client.go:94-98 | the checker never calls the clients' history of a run Illegal, and without a timeout calls it Ok |
| KvServer.OpContext.GetReply | kvraft/server.go:127-143 | the error and the value that the Get handler replies |
| KvServer.OpContext.PutReply | kvraft/server.go:197-211 | the error that the PutAppend handler replies |
| KvServer.KVServer.constructor | kvraft/server.go:383-391 | empty maps and nothing applied |
| KvServer.KVServer.Register | kvraft/server.go:101-110 | a fresh context under its command index, replacing any other |
| KvServer.KVServer.Unregister | kvraft/server.go:113-121 | the context goes unless another one has replaced it |
| KvServer.KVServer.ApplyWrite | kvraft/server.go:253-263 | put, append to a key that is there, append to one that is not |
| KvServer.KVServer.ApplyCommand | kvraft/server.go:219-287 | the state is that of Apply, the waiting context is woken as Wake says, with wrongLeader, keyExist and value, and marked if its request was ignored; it panics exactly when that context was closed already |
| KvServer.KVServer.InstallSnapshot | kvraft/server.go:288-314 | the state is that of Apply: ignored, emptied or merged |
| KvServer.KVServer.EncodeState | kvraft/server.go:326-335 | the state and the index it belongs to |
| KvServer.AnswerRead | kvraft/server.go:79-145 | an RPC that waits for a read is answered with the value of its own key as the log before the entry gives it if the entry is its own request and the copy is filled in, and with ErrWrongLeader otherwise; the server follows the log |
| MapReduce.Regions | mr/worker.go:165-169 | the buckets that got something, each with exactly its pairs in order, numbered 1 to nReduce |
| MapReduce.BucketIsRemainder | mr/worker.go:167 | the bucket is the remainder of the hash, counted from 1 |
| MapReduce.RunEnd | mr/worker.go:261-264 | the end of the run of equal keys: everything up to it has the key, and what follows does not |
| MapReduce.GroupLoop | mr/worker.go:259-274 | the loop shared with the sequential program gives one result for each run of equal keys |
| MapReduce.GroupedReduces | mr/worker.go:245-274 | on a sorted sequence that is each key once, with Reduce of all its values |
| MapReduce.GroupedAscends | mr/worker.go:245-274 | the results come in the order of their keys |
| MapReduce.SamePairsSameResults | mr/worker.go:245-274 | if Reduce does not look at the order of its values, the order of the pairs does not matter |
| MapReduce.ReduceTask | mr/worker.go:208-281 | reading the files, sorting and grouping gives each key of the files once, in order, reduced |
| MapReduce.Sequential | main/mrsequential.go:41-87 | one global sort and group gives each key of all inputs once, in order, reduced |
| MapReduce.FilesHoldBucket | mr/worker.go:172-200 | the files of a bucket, read in any order, hold exactly the pairs of that bucket of all inputs |
| MapReduce.InBucketKeys | mr/worker.go:167 | a key is in one bucket only, with all its values |
| MapReduce.DistributedIsSequential | main/mrsequential.go:62-87 | the results of all buckets together are a permutation of those of the sequential program, each key in its own bucket |
| MapReduce.LinesCounted | mr/worker.go:271 | and so are the printed lines |
| MapReduce.LineTells | mr/worker.go:271 | a printed line tells its key and its value, if keys hold no space |
| Master.NamesDiffer | mr/master.go:49-52 | the name of an intermediate file determines its task and its bucket |
| Master.MasterServer.constructor | mr/master.go:295-311 | each file is numbered by its place, the last one winning |
| Master.MasterServer.GetTask | mr/master.go:65-143 | any waiting map task, or once maps are done any waiting bucket with all files that wait for it; nothing only if none waits, or the bucket found is not positive or has no file; and what is marked as given out |
| Master.MasterServer.ListTasks | mr/master.go:108-117 | each file that waits for the bucket, once |
| Master.MasterServer.MarkAssigned | mr/master.go:118-121 | exactly those files get a negative number |
| Master.MasterServer.MapTaskFinished | mr/master.go:148-179 | the state that MapFinished describes, late reports ignored |
| Master.MasterServer.ReduceTaskFinished | mr/master.go:181-196 | the bucket and its files go, and the job is done when no file is left |
| Master.MasterServer.MapTaskTimedOut | mr/master.go:235-251 | the task waits again if it is still there |
| Master.MasterServer.ReduceTaskTimedOut | mr/master.go:252-264 | the bucket waits again with its files if it is still there |
| MrRuns.OneTaskPerInput | mr/master.go:306-308 | each input gets its own number exactly when no input is named twice |
| MrSystem.WaitingIsAll | mr/master.go:108-117 | a bucket that waits waits with every one of its files |
| MrRuns.StepKeeps | mr/master.go:65-264 | every request, report, timeout and file written keeps the invariant of the job |
| MrRuns.ReachableIsGood | mr/master.go:65-264 | so it holds in every reachable state |
| MrRuns.RequestsAreServed | mr/master.go:65-143 | in every run, a request is answered with a task exactly when one waits, and with a map task until all inputs are finished |
| MrRuns.MapGivenOnce | mr/master.go:83-88 | in every run, the task of an input is given out again only after its timer fired in between |
| MrRuns.BucketGivenOnce | mr/master.go:104-125 | and a bucket only after the timer of one of its tasks |
| MrRuns.TimerReturnsMap | mr/master.go:235-251 | once the timer of an unfinished input has fired, a request may be answered with it |
| MrRuns.TimerReturnsBucket | mr/master.go:252-264 | once the timer of an unreported bucket has fired, a request may be answered with it and all its files |
| MrRuns.ReduceTasksAreComplete | mr/master.go:92-125 | in every run, a reduce task is given out only when every input is finished, and lists exactly the files that inputs wrote for its bucket |
| MrRuns.FinishedStaysFinished | mr/master.go:231-264 | whatever late reports and timeouts follow, a finished input never comes back, nor a reported bucket or any of its files |
| MrRuns.DoneMeansReported | mr/master.go:283-290 | when the master says done, every input is finished and every bucket written to is reported and has its output |
| MrSystem.ReducesBucket | mr/worker.go:208-281 | what any reduce task writes, at any time, is Reduce of its whole bucket |
| MrRuns.ReachableIsRight | mr/worker.go:208-281 | in every run every output file ever written is Reduce of its whole bucket |
| MrRuns.DoneMeansSequential | mr/master.go:283-290 | in every run, when the master says done, the output files together hold the lines of the sequential program for the same inputs, each named once |
| MrRuns.DistinctInputsCount | mr/master.go:306-308 | when no input is named twice those are all inputs |
| MrRuns.CanAlwaysFinish | mr/master.go:65-264 | no run gets stuck: if some input yields a pair, steps lead from every reachable state to the end of the job in which nobody who holds a task in that state writes, runs or reports; timers, new requests and tasks given out later are enough |
| MrRuns.JobEndsIff | mr/master.go:191-194 | a job can end exactly when some input yields a pair |
| MrRuns.EmptyJobNeverEnds | mr/master.go:191-194 | a job whose inputs yield no pair is never done |

## Left out

- Checker.CheckKv: assumes that every operation returns after it was called, and for the answer Illegal that no call is at the time of a return on the same key; `Entries.ProperIsNeeded` and `Ties.NoTiesKeepsAnswer` say that sorting by time promises nothing otherwise.
- Checker.CheckOperations: the same two assumptions, over the whole history.
- Checker.CheckEvents: assumes that every id is called once and later returned once; `Entries.WellFormedIffPaired` says that the entries are a well-formed history exactly then, and what the search does with others is not modelled.
- CheckSingle.Check: the cached bitset is kept as a value, since nothing changes it after it is stored; the client id of an entry is not modelled.
- RaftServer.Raft.AppendEntries: the send on `heartBeatCh` and the restart of the election timer are not modelled.
- RaftServer.Raft.HandleAppendReply: the sleep after a heartbeat and the check before it, which change nothing, are not modelled.
- RaftCluster.ReachableIsGood: a run stops where a term conflict falls on the sentinel, which by `RaftCluster.AppendKeepsShape` is exactly where the shape is lost, and where the source itself would stop, at a nil leader or at a read outside its log.
- RaftRounds.RoundsEndIff: the leader's log is fixed, the follower hears from this leader only, terms rise, and sentinels agree.
- RaftHeartbeat.RoundsCommitOwn: the same, and the leader's commitIndex is within its log.
- RaftCompaction.SameAppends: compares what both peers do when neither panics; `RaftCompaction.SafeIff` says exactly when one does.
- KvSystem.ReplicasFollowLog: that the entries newly committed by any peer are those of one log is a hypothesis on each step (State Machine Safety, section 5.4.3 of the extended Raft paper).
- KvCmdIndex.NeverClosedTwice: that messages and snapshots go on from entries with the sender's command index, and that the entry at a cursor and the one that a snapshot stands for are the committed ones, are hypotheses on each step (Log Matching, section 5.3 of the extended Raft paper).
- RaftAcks.CommittedIsAcked: an acknowledgement is a reply that the leader received; that a reply belongs to the message it names is left to the network.
- KvReplies.AnswersAreOwn: that Start never returns the same index and term for two requests is a hypothesis on the run; it is what Election Safety (section 5.2 of the extended Raft paper) would give. That a won election has a term above 0 is part of the step.
- KvRuns.ServiceIsLinearizable: besides that, the writes in the committed log must be told from repeats as for `KvMachine.OnceIffTold`, every request must be a client's, and no two calls may share client and number, for which the source has random ids and a counter.
- KvSystem.StepKeeps: a request is in the log as its handler fills it in; that a copy may have been encoded before is a choice made when a server reads it. A killed peer, whose Start returns -1 as a leader's index, is a crashed one here.
- MrRuns.DoneMeansSequential: Reduce must not depend on the order of its values, and each handler of the master is one atomic step; the source releases one lock before taking the other inside TaskFinished.
- Election Safety, growing terms and Leader Completeness: this code does not guarantee them. A same-term AppendEntries resets the vote (`RaftVotes.VotesTwice`), the vote handler releases its lock between check and grant, becomeLeader does not look at role and term again, and a stale reply can lower the term (`RaftVotes.TermFallsIff`).
- Votes are in the model as steps that change a peer's state; counting them is not.
- Growth of `commitIndex`: InstallSnapshot may lower it.
- Reports of failed tasks: the worker sends them with no task in them, so a failed map report changes nothing and a failed reduce report ends in an index out of range.
- Liveness of the protocols under a fair network: elections, retransmission, timers and tickers. What is proved is that rounds of one leader and one follower end, and that a MapReduce job can always be finished.
- Goroutines, channels and locks as such: a critical section is a step, a channel to the application an unbounded queue.
- labrpc and labgob: the network is any delivery of messages, and encoding is lossless except that decoding into a map merges.
- Files, sockets, JSON, plugins and the renaming of temporary files: a file is written whole.
- The hash function of doMap: any function to the non-negative numbers.
- Go's 64-bit integers are unbounded here, except the words of bitsets.
- Bytes of strings: characters, compared in order.
- The HTML of porcupine's visualization, the test harnesses, the MapReduce applications and the clerk's choice of a leader.
