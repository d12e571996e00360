# Verified models of a linearizability checker, Raft, and the services around them

The repository holds a Go implementation of a distributed key/value store: a Raft library, a replicated
key/value server, a shard master, a map/reduce framework, and the linearizability checker (Porcupine) that
judges histories of the store. This project models the parts of it that are hardest to get right and proves
what they are for, for all inputs and all runs.

- **The linearizability checker.** `CheckSingle` is the backtracking search: a doubly linked list edited in
  place, a bitset, a hash-bucketed memo of cloned bitsets and states, an explicit undo stack and the recorded
  longest sequences. It is proved to terminate and to agree with the definition of linearizability in
  `linearizability.dfy`, which mentions none of these. Around it: turning operations and events into entries,
  partitioning by key (locality, Theorem 1 of Herlihy and Wing, "Linearizability"), the concurrent checking
  of partitions with kill flag and timeout as a step system, and the replay of recorded sequences for display.
- **Raft.** `raft_server.dfy` gives the handlers as transitions of a server record, quirks included;
  `raft_node.dfy` is the object with its fields and in-place handlers, each proved to perform its transition;
  `raft_network.dfy` runs servers over a network that loses, delays, repeats and reorders messages, with crashes and
  restarts from persisted state. Proved of every run: Election Safety; and of every run without snapshots:
  Log Matching, stability of acknowledged prefixes, what a vote says about the logs, exactly which fresh requests
  are accepted, bounds on the fast back-up, and that a leader and a follower left alone reach equal logs. A
  winner's log can be behind a voter's; a run and the exact condition are given. Compaction is a separate
  refinement with its exact condition.
- **The shard master.** `Join` rebalances shards in place, in arbitrary map-iteration order, for any number of
  shards; the result is balanced, moves shards only to groups that joined, and moves as few as possible.
- **Map/reduce and the replicated store.** The distributed program produces the sequential program's lines
  if no reduction depends on the order of its values, without which the sort decides what is printed;
  the duplicate filter applies each write once exactly when no retry comes after a later write of its client, and
  the server's answers are those of the store against which the checker judges histories.

Where code and documentation differ, the model follows the code: a vote is kept when `AppendEntries` raises
the term, a repeated vote skips the log check, the leader looks for `reply.Term` instead of `XTerm`, and a
term learnt from an `InstallSnapshot` reply is not persisted.

The library sort is unstable, so that the verdict on a history in which a call carries the time stamp of a
return, or an operation returns no later than it is called, is open; `Histories.StampedIff` shows that this is
the exact limit. A model's `Equal` may
be any congruence for `Step` (`Linearizability.EqualIsCongruence`).

Module by file: `collections`, `hiding`, `sorting` and `strings` are shared helpers; `linearizability`, `entries`, `histories`, `events`,
`entrylist`, `liststack`, `words`, `bitset`, `search`, `memo`, `checker`, `locality`, `kv`, `parallel`, `visualization`
are the checker; `raft_*` is Raft; `shards`, `shardmaster`; `mapreduce`; `kvraft`.
`dafny verify dfyconfig.toml` checks everything.

## Model

| member | source | states |
|---|---|---|
| `Checker.CheckSingle` | 6.824/src/porcupine/checker.go:174-248 | terminates; `true` implies that some order of all operations respects real time and is accepted by `Step`, even if kill is raised, and that every `longest[i]` is such an order; `false` without kill implies that there is none, and with partial results wanted each `longest[i]` is a longest partial linearization containing i, nil exactly if there is none; every recorded sequence is a partial linearization containing its index, and none is recorded on `false` if partial results are not wanted |
| `Checker.TryCall` | 6.824/src/porcupine/checker.go:189-208 | the iteration at a call keeps the whole loop invariant and decreases the termination measure, whether it pushes or skips |
| `Checker.Backtrack` | 6.824/src/porcupine/checker.go:209-237 | the iteration at a return keeps the loop invariant and decreases the measure: the stack is recorded, the bitset cleared, the list restored |
| `Checker.Linearize` | 6.824/src/porcupine/checker.go:196-202 | pushing a call: list, bitset, memo and stack stay in step and one more of finitely many configurations is memoised |
| `Checker.Record` | 6.824/src/porcupine/checker.go:214-229 | exactly the operations on the stack without an equally long recorded sequence get the stack recorded |
| `Checker.Visit` | 6.824/src/porcupine/checker.go:193-200 | a configuration is new exactly if no entry ever inserted has the same set and an equal state; it is then stored, and later in-place changes of the bitset leave it alone |
| `Search.HitExplored` | 6.824/src/porcupine/checker.go:195-206 | a memo hit may be skipped: the stored configuration is off the stack, hence explored, and equal states have equal futures |
| `Search.TopExplored` | 6.824/src/porcupine/checker.go:209-243 | at a return every way to go on from the stack has been explored and recorded |
| `Search.PushKeepsInv` | 6.824/src/porcupine/checker.go:196-202 | after a push the stack is a partial linearization and every memoised configuration is on it or explored |
| `Search.PopKeepsInv` | 6.824/src/porcupine/checker.go:230-236 | undoing an explored operation leaves every memoised configuration on the stack or explored |
| `Search.RootExplored` | 6.824/src/porcupine/checker.go:210-212 | if the empty configuration is explored there is no linearization and the recorded sequences are the longest |
| `Linearizability.CompleteIffPartial` | 6.824/src/porcupine/checker.go:239-247 | a complete partial linearization is a linearization and conversely |
| `EntryList.Lift` | 6.824/src/porcupine/checker.go:154-162 | the list without the call and its return is linked consistently in both directions, and both nodes remember their neighbours, also if they are adjacent |
| `EntryList.Unlift` | 6.824/src/porcupine/checker.go:164-172 | puts return and call back and restores exactly the list that `Lift` changed |
| `EntryList.InsertBefore` | 6.824/src/porcupine/checker.go:65-76 | how the links of the node, the mark and the mark's predecessor change |
| `EntryList.MakeLinkedEntries` | 6.824/src/porcupine/checker.go:116-133 | one node per entry in order, linked both ways, each call matched with the node of its own return |
| `ListStack.Push` | 6.824/src/porcupine/checker.go:196-202 | the list is the history minus the operations on the stack, and every frame below can still be undone |
| `ListStack.Pop` | 6.824/src/porcupine/checker.go:230-236 | undoing in last-in first-out order restores the list of the shorter stack exactly |
| `Words.OrMask` | 6.824/src/porcupine/bitset.go:29-33 | or-ing a word with `1 << minor` sets one binary digit and no other |
| `Words.AndNotMask` | 6.824/src/porcupine/bitset.go:35-39 | and-not with `1 << minor` clears one binary digit and no other |
| `Words.AndMask` | 6.824/src/porcupine/bitset.go:41-44 | and-ing with `1 << minor` gives a number other than zero exactly if that digit is 1 |
| `Words.EqualWords` | 6.824/src/porcupine/bitset.go:62-72 | words with the same digits are equal |
| `Bitsets.Set` | 6.824/src/porcupine/bitset.go:29-33 | adds one id to the stored set and nothing else |
| `Bitsets.Clear` | 6.824/src/porcupine/bitset.go:35-39 | removes one id from the stored set and nothing else |
| `Bitsets.Get` | 6.824/src/porcupine/bitset.go:41-44 | membership in the stored set |
| `Bitsets.NewBitset` | 6.824/src/porcupine/bitset.go:10-17 | the empty set, in just enough words |
| `Bitsets.Clone` | 6.824/src/porcupine/bitset.go:19-23 | a fresh array with the same words |
| `Bitsets.Popcnt` | 6.824/src/porcupine/bitset.go:46-52 | the size of the stored set |
| `Bitsets.Hash` | 6.824/src/porcupine/bitset.go:54-60 | a function of the words alone, so that equal bitsets have equal hashes |
| `Bitsets.HashBit` | 6.824/src/porcupine/bitset.go:54-60 | each digit of the hash is the parity of that digit of the words, flipped where the count has a 1 |
| `Bitsets.Equals` | 6.824/src/porcupine/bitset.go:62-72 | equality of the words |
| `Bitsets.MembersInjective` | 6.824/src/porcupine/bitset.go:62-72 | bitsets of one length are equal exactly if they store the same set |
| `Memo.CacheContains` | 6.824/src/porcupine/checker.go:140-147 | scanning one bucket answers as a scan of everything inserted would |
| `Memo.InsertFiled` | 6.824/src/porcupine/checker.go:196-198 | an entry appended to the bucket of its hash keeps the buckets complete |
| `Histories.MakeEntries` | 6.824/src/porcupine/checker.go:43-55 | a permutation of one call and one return entry per operation, sorted by time |
| `Histories.StampedIff` | 6.824/src/porcupine/checker.go:39-55 | exactly when operations take time and no call carries the stamp of a return, every order in which the unstable sort may leave the entries is well formed and in the real-time order of the history |
| `Histories.EntriesFaithful` | 6.824/src/porcupine/checker.go:43-55 | then the entries are linearizable exactly if the operations are |
| `Parallel.TiesMatter` | 6.824/src/porcupine/checker.go:39-53 | a history outside that condition, and a sorted order of its entries, on which the verdicts differ |
| `Events.Renumber` | 6.824/src/porcupine/checker.go:87-101 | ids are renamed one to one to 0..n-1, in the order of their first events, and nothing else changes |
| `Events.ConvertEntries` | 6.824/src/porcupine/checker.go:103-114 | each event becomes an entry with its position as time |
| `Events.EventsFaithful` | 6.824/src/porcupine/checker.go:87-114 | the entries of paired events are well formed and describe exactly the operations of the events |
| `Events.SameOperations` | 6.824/src/porcupine/checker.go:87-114 | the operations of the entries are the operations of the events in the order of their calls, whatever the ids were |
| `Locality.StoreReplay` | 6.824/src/models/kv.go:41-53 | a store accepts an order exactly if each object accepts its part of it, and the states match |
| `Locality.Restrict` | 6.824/src/porcupine/model.go:28-32 | a linearization of the store restricted to a key linearizes that key |
| `Locality.Merge` | 6.824/src/porcupine/model.go:28-32 | orders of the keys that respect real time merge into one order of all operations that does |
| `Locality.StoreIffGroups` | 6.824/src/porcupine/model.go:28-32 | a history of any store made of independent objects is linearizable exactly if the renumbered history of each object is |
| `KeyValue.Partition` | 6.824/src/models/kv.go:18-35 | one group per key that occurs, in the order of the keys, each the operations of that key in the order of the history |
| `KeyValue.StoreIsProduct` | 6.824/src/models/kv.go:36-53 | the whole-map store behaves like one single-string model per key |
| `KeyValue.PartitionDecides` | 6.824/src/models/kv.go:18-53 | the groups that `Partition` returns are all linearizable exactly if the whole store is |
| `KeyValue.KvEqualIsCongruence` | 6.824/src/porcupine/model.go:59-61 | equality of states is a congruence for `Step` |
| `Parallel.RunWorker` | 6.824/src/porcupine/checker.go:276-280 | a worker's answer is exact unless kill was raised, and its recorded sequences are sound in any case |
| `Parallel.VerdictIsRight` | 6.824/src/porcupine/checker.go:269-348 | under every interleaving: Illegal only if some partition is not linearizable, Ok only if all are, Unknown only after a timeout, and without a timeout exactly one of the first two |
| `Parallel.InfoIsComplete` | 6.824/src/porcupine/checker.go:306-337 | information is read only after all workers have answered; it is sound, and without timeout it holds whole linearizations for a partition that fits and longest partial ones for one that failed |
| `Parallel.Partials` | 6.824/src/porcupine/checker.go:314-333 | the distinct recorded sequences of a partition, each once |
| `Parallel.StepsEnd` | 6.824/src/porcupine/checker.go:286-305 | every step of workers or main thread leaves less to do |
| `Parallel.AnswerExists` | 6.824/src/porcupine/checker.go:276-280 | for every well-formed history there is an answer that a worker may give |
| `Parallel.NeverStuck` | 6.824/src/porcupine/checker.go:286-313 | with at least one partition, until the verdict some event of a worker or of the main thread is enabled |
| `Parallel.NothingToCheckHangs` | 6.824/src/porcupine/checker.go:286-305 | with no partition and no timeout nothing can ever happen |
| `Parallel.MovesIff` | 6.824/src/porcupine/checker.go:269-305 | every run goes on to a verdict exactly if there is a partition or a timeout |
| `Parallel.NothingToCheckIff` | 6.824/src/porcupine/checker.go:360-368 | a check of operations has no partition exactly if the history is empty |
| `Parallel.PrepareOperations` | 6.824/src/porcupine/checker.go:360-368 | the histories handed to the workers are the entries of the groups of the keys |
| `Parallel.CheckDecidesStore` | 6.824/src/porcupine/checker.go:360-368 | a check of operations without timeout decides linearizability of the whole store, and with one never gives a wrong verdict |
| `Parallel.PrepareEvents` | 6.824/src/porcupine/checker.go:350-358 | the one history handed to a worker is the renumbered and converted events |
| `Parallel.CheckDecidesEvents` | 6.824/src/porcupine/checker.go:350-358 | a check of paired events without timeout decides linearizability of the operations of the events, and with one never gives a wrong verdict |
| `Visualization.Values` | 6.824/src/porcupine/visualization.go:40-53 | the input and output of every operation, by id |
| `Visualization.ReplayPartials` | 6.824/src/porcupine/visualization.go:62-79 | replaying recorded sequences never reaches the panic, shows the states of the linearizations, and notes for each operation one of the longest sequences with it |
| `Visualization.NoteLargest` | 6.824/src/porcupine/visualization.go:73-76 | the table of largest sequences after one more sequence |
| `Visualization.LargestIsLongest` | 6.824/src/porcupine/visualization.go:73-83 | after a failed search the sequence noted for an operation is a longest partial linearization with it |
| `Visualization.ShowPartition` | 6.824/src/porcupine/visualization.go:33-87 | for a partition of any finished check with information: its recorded sequences are replayed without panic; without timeout they are linearizations if it fits, and if it failed the sequence noted for an operation is a longest partial linearization with it |
| `RaftNode.Raft.RequestVote` | 6.824/src/raft/raft.go:189-230 | performs the vote transition: new state, persisted state and answer |
| `RaftNode.Raft.ChangeRole` | 6.824/src/raft/raft.go:400-420 | the new role with its term, vote, `nextIndex` and `matchIndex`, and nothing else |
| `RaftNode.Raft.StartElection` | 6.824/src/raft/raft.go:422-441 | a server that is not leader becomes candidate of the next term, persisted, and asks with its last index and term |
| `RaftNode.Raft.CountVotes` | 6.824/src/raft/raft.go:271-333 | the number of distinct other peers that granted their vote |
| `RaftNode.Raft.FinishElection` | 6.824/src/raft/raft.go:445-454 | leadership only as a candidate of the same term with at least half of the peers besides itself |
| `RaftNode.Raft.Start` | 6.824/src/raft/raft.go:350-373 | a leader appends the command with its term and persists; index, term and role are returned |
| `RaftNode.Raft.Persist` | 6.824/src/raft/raft.go:102-124 | the persisted state is the current term, vote, commit index, snapshot position and log |
| `RaftNode.Raft.ReadPersist` | 6.824/src/raft/raft.go:130-158 | a restarted server is a follower with exactly the persisted state |
| `RaftNode.Raft.LastLogTermIndex` | 6.824/src/raft/common.go:42-48 | term and logical index of the last entry |
| `RaftNode.Raft.GetAEInfo` | 6.824/src/raft/common.go:51-71 | what a request for a peer holds, and when the program would read outside its log |
| `RaftNode.Raft.CheckIfAEOutOfOrder` | 6.824/src/raft/raft.go:581-591 | the guard against delayed requests |
| `RaftNode.Raft.AppendEntries` | 6.824/src/raft/append_entries.go:162-259 | performs the append transition: every rejection with its reply fields, and the new log and commit index on success |
| `RaftNode.Raft.FirstIndexOfTerm` | 6.824/src/raft/append_entries.go:237-242 | the first index after the snapshot with an entry of the conflicting term |
| `RaftNode.Raft.ContainsXTerm` | 6.824/src/raft/raft.go:572-579 | the last position after the first with an entry of that term, or -1 |
| `RaftNode.Raft.HandleAppendReply` | 6.824/src/raft/append_entries.go:88-157 | performs the transition on an answer: step down, advance, ignore or back up |
| `RaftNode.Raft.LeaderCommit` | 6.824/src/raft/append_entries.go:262-281 | the commit index becomes the greatest index beyond it, up to one past the log, that more than half of the peers are known to hold |
| `RaftNode.HoldersIsSize` | 6.824/src/raft/append_entries.go:264-276 | what is compared with half of the peers is the number of peers whose `matchIndex` is at least the index |
| `RaftNode.Raft.SaveStateAndSnapshot` | 6.824/src/raft/snapshot.go:20-35 | performs the compaction transition with the snapshot beside the persisted state, and says when the program would read outside its log |
| `RaftNode.Raft.InstallSnapshot` | 6.824/src/raft/snapshot.go:94-130 | performs the install transition, with the snapshot stored and the term of the reply |
| `RaftElection.ServerStep` | 6.824/src/raft/raft.go:189-230 | no step of any handler gives a second vote in a term or contradicts a persisted vote, although votes survive term increases |
| `RaftElection.WinnerHasMajority` | 6.824/src/raft/raft.go:445-454 | `count >= len(peers)/2` votes of others and the own vote are a majority |
| `RaftElection.ElectionSafety` | 6.824/src/raft/raft.go:400-460 | in every run, with loss, repetition, reordering, crashes and snapshots, servers that lead in one term at any two times are the same server |
| `RaftElection.SomeoneCanWin` | 6.824/src/raft/raft.go:206-229 | the log check never blocks all candidates: in any state some server would get every vote at a sufficiently high term |
| `RaftVotes.GrantIff` | 6.824/src/raft/raft.go:204-229 | a vote is granted exactly as a repetition in the same term, or for the first time in the term to a candidate whose last term and index are not behind |
| `RaftVotes.VoteIff` | 6.824/src/raft/raft.go:220-226 | without snapshots, a server that hears of a newer term votes exactly if the candidate's log has a later last term, or the same last term and continues the voter's log |
| `RaftVotes.WinnerCoversVoters` | 6.824/src/raft/raft.go:204-229 | in every run without snapshots, each vote of a winner was given at some step, and the winner's log is later than the voter's or continues it exactly unless the vote was a repetition to a candidate that was behind |
| `RaftStaleVote.StaleVoteWins` | 6.824/src/raft/raft.go:210-215 | a run of three servers in which a server wins with the repeated vote of a server whose log is later than its own |
| `RaftLog.AcceptedLog` | 6.824/src/raft/append_entries.go:208-232 | a successful request leaves the follower with the leader's log up to the end of the request |
| `RaftLog.SentRequestOk` | 6.824/src/raft/common.go:51-71 | what a leader sends is a slice of its log that reaches its last index |
| `RaftReplication.FreshRequest` | 6.824/src/raft/append_entries.go:187-254 | a request just sent is accepted exactly if the follower has the entry before it; then the logs are equal and the follower has committed what the leader has, up to the end of the log |
| `RaftReplication.FreshRejection` | 6.824/src/raft/append_entries.go:187-246 | otherwise the answer points to the end of a log that is too short, or to the first entry of the term that the follower has instead |
| `RaftReplication.RejectedExchange` | 6.824/src/raft/append_entries.go:123-146 | after a rejection the leader goes back to exactly there |
| `RaftReplication.AcceptedExchange` | 6.824/src/raft/append_entries.go:105-117 | after an acceptance the leader knows that the peer holds all of its log, and commits what a majority is known to hold if the request ended with an entry of its term |
| `RaftReplication.CatchesUpInRun` | 6.824/src/raft/append_entries.go:26-160 | at any time of a run without snapshots, a leader and a peer not in a later term that exchange requests and answers have equal logs after at most as many exchanges as the leader's log has entries |
| `RaftReplication.FreshRequestInRun` | 6.824/src/raft/append_entries.go:208-232 | the acceptance condition of a fresh request at any time of a run without snapshots |
| `RaftReplication.NewLeader` | 6.824/src/raft/raft.go:409-417 | a new leader starts every peer at the end of its log and knows only of its own entries |
| `RaftLog.LogStep` | 6.824/src/raft/append_entries.go:162-232 | every step without snapshots keeps the invariant that logs and requests are pieces of leaders' logs, which only grow, that no log holds a term above its server's, and that a leader's own `matchIndex` is its last index |
| `RaftSafety.LogMatching` | 6.824/src/raft/append_entries.go:162-232 | in every run without snapshots, logs with an entry of the same index and term agree up to it, also across servers and times |
| `RaftSafety.LeaderAppendsOnly` | 6.824/src/raft/raft.go:350-373 | while a server leads in a term its log is only appended to |
| `RaftSafety.AcknowledgedIsStable` | 6.824/src/raft/raft.go:581-591 | entries acknowledged in a term are neither removed nor changed while the follower stays in that term, whatever requests arrive late or twice |
| `RaftSafety.NextIndexInRange` | 6.824/src/raft/append_entries.go:123-155 | a leader's `nextIndex` stays within 1..lastIndex+1 and it never reads outside its log |
| `RaftSafety.MismatchMovesDown` | 6.824/src/raft/append_entries.go:123-155 | every log-mismatch rejection strictly lowers `nextIndex`, which stays at least 1, and never asks for a snapshot |
| `RaftSafety.NoMismatchAtZero` | 6.824/src/raft/append_entries.go:187-246 | a request from index 0 is never answered with a mismatch |
| `RaftSafety.RetriesAreBounded` | 6.824/src/raft/append_entries.go:123-155 | between two successes a leader backs up for a peer at most as often as its log has entries |
| `RaftCompaction.SaveCompacts` | 6.824/src/raft/snapshot.go:20-35 | compaction inside the log drops exactly the prefix, also after a restart |
| `RaftServer.PersistSurvives` | 6.824/src/raft/raft.go:102-158 | a server that persists and crashes comes back as a follower with all that it had persisted |
| `RaftCompaction.SnapshotSurvives` | 6.824/src/raft/snapshot.go:20-35 | a saved snapshot is there after a restart, with its index and term and the rest of the log |
| `RaftCompaction.SnapshotTravels` | 6.824/src/raft/snapshot.go:94-130 | a peer that is behind stores the leader's snapshot with its index and term and keeps exactly the entries that it has after it |
| `RaftCompaction.InstallThenAppend` | 6.824/src/raft/snapshot.go:66-70 | a peer that has installed a snapshot in place of its log accepts the leader's next request and has its entries |
| `RaftCompaction.OldSnapshotIgnored` | 6.824/src/raft/snapshot.go:101-114 | a snapshot of an earlier term, or that is not newer, changes neither log nor snapshot |
| `RaftCompaction.InstallPersists` | 6.824/src/raft/snapshot.go:105-128 | what is persisted stays up to date when a snapshot is handled |
| `RaftCompaction.BehindSnapshot` | 6.824/src/raft/common.go:57-64 | a peer whose next entry is gone gets a request without entries from the end of the log |
| `RaftCompaction.BeforeSnapshot` | 6.824/src/raft/append_entries.go:201-206 | a request from before the snapshot is turned down with the index after it and changes no log |
| `RaftCompaction.SameVote` | 6.824/src/raft/raft.go:189-230 | votes do not depend on compaction |
| `RaftCompaction.SameRequest` | 6.824/src/raft/common.go:51-71 | what a leader sends to a peer whose `nextIndex` lies after the snapshot does not depend on compaction, its commit index aside |
| `RaftCompaction.SameAppendIff` | 6.824/src/raft/append_entries.go:187-232 | a request gets the same decision and leaves the same logical log on the compacted log exactly under a condition on the request and the uncompacted log |
| `RaftCompaction.SameReplyIff` | 6.824/src/raft/append_entries.go:168-246 | exactly for which requests every field of the answer is the same on the compacted log |
| `RaftCompaction.InstallIff` | 6.824/src/raft/append_entries.go:144-153 | the two ask for a snapshot alike exactly unless a leader goes back into the part that only one of them still holds |
| `RaftWitness.StaleTermIsAccepted` | 6.824/src/raft/append_entries.go:209-218 | a run of five servers in which a request arrives that a server accepts after its snapshot and would reject without it |
| `RaftCompaction.StatesAlike` | 6.824/src/raft/snapshot.go:20-35 | over any sequence of timeouts, wins, vote requests, requests, answers, commands, crashes and saves that agrees with what has been dropped, a server that compacts keeps the logical log of one that never does |
| `RaftCompaction.CompactionIsInvisible` | 6.824/src/raft/snapshot.go:20-35 | over such a sequence the two grant the same votes, accept the same requests and send the same requests for votes; their outputs are the same in every field exactly under the conditions of `SameReplyIff` and `InstallIff` |
| `RaftCompaction.OnlyRequestsMatter` | 6.824/src/raft/append_entries.go:129-142 | for a server since its start, only requests can fail to agree: at a crash the persisted state is up to date, and an answer carries term 0 or a higher term |
| `RaftCompaction.SyncedAlways` | 6.824/src/raft/raft.go:121-124 | over such a sequence the persisted term, vote and log stay those of the server |
| `ShardMasters.Relabel` | 6.824/src/shardmaster/server.go:492-501 | exactly `r` shards of one group get a new owner, no other shard changes |
| `ShardMasters.LastCounts` | 6.824/src/shardmaster/server.go:371-380 | the number of shards of each group |
| `ShardMasters.FirstPass` | 6.824/src/shardmaster/server.go:473-509 | old groups keep the average, or one more as long as extra shards are left, in any order of the groups |
| `ShardMasters.SecondPass` | 6.824/src/shardmaster/server.go:511-531 | the freed shards go to the new groups, each gets the average or one more, and none is left over |
| `ShardMasters.LeftFits` | 6.824/src/shardmaster/server.go:366-370 | the extra shards that old groups leave are not more than the new groups |
| `Shards.MovesNeeded` | 6.824/src/shardmaster/server.go:354-370 | the number of shards that any balanced assignment has to move |
| `ShardMasters.JoinOutcome` | 6.824/src/shardmaster/server.go:466-532 | the two passes together balance, move only to new groups, and move as few shards as any balanced assignment |
| `ShardMasters.AdjustConfig` | 6.824/src/shardmaster/server.go:354-532 | the same for the empty, single-group and many-group branches |
| `ShardMasters.ShardMaster.GetConfigCopy` | 6.824/src/shardmaster/server.go:545-553 | the configuration with the number, or the last one |
| `ShardMasters.ShardMaster.Join` | 6.824/src/shardmaster/server.go:304-318 | a new configuration with the groups added; balance, ownership and numbering hold after any sequence of joins |
| `MapReduce.Sequential` | 6.824/src/main/mrsequential.go:38-84 | the lines of one of the orders in which the sort may leave the pairs: one per key, with a reduction of all its values, for any reduce function |
| `MapReduce.ReduceSorted` | 6.824/src/mr/worker.go:127-148 | the grouping loop writes one line per key of a sorted sequence, in the order of the keys, with all values of the key in their order there |
| `MapReduce.DoMapTask` | 6.824/src/mr/worker.go:77-82 | each pair goes to the bucket of its key, in order |
| `MapReduce.DoReduceTask` | 6.824/src/mr/worker.go:103-150 | the lines of exactly the keys of its bucket |
| `MapReduce.ReducesTogether` | 6.824/src/mr/worker.go:77-148 | reductions of the buckets are together a reduction of everything, each key appearing once |
| `MapReduce.Distributed` | 6.824/src/mr/worker.go:63-148 | for any hash, number of reduce tasks and reduce function, the outputs together hold one line per key with a reduction of all its values, each output the keys of its bucket in order |
| `MapReduce.EveryArrangement` | 6.824/src/main/mrsequential.go:59 | the unstable sort may leave the values of a key in any order |
| `MapReduce.SameLinesIff` | 6.824/src/main/mrsequential.go:59-84 | all outputs that the sequential program may print have the same lines if and only if no reduction depends on the order of the values of its key |
| `MapReduce.RunBoth` | 6.824/src/main/mrsequential.go:38-84 | the distributed outputs have the keys of the sequential output, each once, and under that condition exactly its lines |
| `KvRaft.FilterIsExact` | 6.824/src/kvraft/server.go:144-161 | the duplicate filter applies exactly the first occurrence of every write if and only if no retry follows a later write of its client |
| `KvRaft.AppliesOnce` | 6.824/src/kvraft/server.go:144-161 | then the data is that of applying each write once |
| `KvRaft.ServesStore` | 6.824/src/kvraft/server.go:143-171 | for every log, the operations that take effect, with the values that the server answers, are a linearization of the key/value store against which histories are checked |
| `KvRaft.ServesStep` | 6.824/src/kvraft/server.go:149-171 | one operation of the server is a step of that store |
| `KvRaft.ValueIs` | 6.824/src/kvraft/server.go:149-158 | the value of a key is that of its last put that took effect, followed by everything appended since |
| `KvRaft.LateRetryIsAppliedAgain` | 6.824/src/kvraft/server.go:219-224 | a log with a late retry for which the data differs |
| `KvRaft.RunCut` | 6.824/src/kvraft/server.go:232-265 | a run can be cut anywhere and continued from its state |
| `KvRaft.KVServer.ApplyOp` | 6.824/src/kvraft/server.go:143-171 | applies one committed operation through the filter, answers with the value of the key, and saves a snapshot if the log is too long |
| `KvRaft.KVServer.CheckApplied` | 6.824/src/kvraft/server.go:219-224 | whether the write is the last one remembered for its client |
| `KvRaft.KVServer.SaveSnapshot` | 6.824/src/kvraft/server.go:232-247 | the snapshot holds data and filter of the applied log |
| `KvRaft.KVServer.ReadSnapshot` | 6.824/src/kvraft/server.go:249-265 | data and filter are those of the log up to the snapshot |
| `KvRaft.KVServer.CrashAndRecover` | 6.824/src/kvraft/server.go:129-171 | cutting a run anywhere, restoring the last snapshot and continuing gives the state of the uninterrupted run |

## Left out

- Raft commit safety: what `commitIndex` and `matchIndex` hold is modelled, but nothing is claimed about committed entries. A rejection sets `matchIndex` to an index that no answer has confirmed, and the test before `LeaderCommit` looks at the last entry sent only. `lastApplied` and `Apply` are not modelled.
- `InstallSnapshot` in the log theorems, since it keeps a suffix of the log without comparing the term at the snapshot index. It takes part in Election Safety with its effect on term, role and log.
- Raft timers, locks, goroutines and unlocked reads: a handler is one step. A message is a value fixed when it is sent. The branch of `SendRequest` that compares `reply.Term` is not modelled, since the handler never sets that field.
- RaftNode.Raft.CountVotes: the votes that arrive before the timeout are a parameter; sending the requests is part of the step system.
- Raft commands are integers, since only their identity matters.
- KeyValue.KvModel: descriptions of operations and states for display.
- Histories.MakeEntries: the library sort is replaced by an insertion sort; only that its result is a sorted permutation is used. The same holds of the sorts in `KeyValue.Partition` and `MapReduce`.
- Parallel.CheckDecidesStore: for histories in which a call carries the stamp of a return the verdict is that of the order in which the sort leaves the entries; `Histories.StampedIff` says that exactly these are excluded.
- Parallel.VerdictIsRight: goroutines, channel and timer are events of a step system; a worker's run is one step constrained by the contract of `CheckSingle`.
- Visualization.ReplayPartials: the descriptions, the HTML and the order in which sequences are shown are not modelled.
- Parallel.Partials: recorded sequences are told apart by their ids, where the program compares their addresses.
- The leave and move operations of the shard master: only joins are modelled, for which balance is the promise. Nothing is said about replicas agreeing on a configuration, which depends on map-iteration order.
- ShardMasters.AdjustConfig: the branch for fewer groups than before, which only a leave reaches.
- ShardMasters.ShardMaster.Join: requires that gid 0 does not join, since the program uses it for unassigned shards.
- MapReduce.Distributed: files, JSON and the task master are left out; the intermediate files are values.
- KvRaft.KVServer.ApplyOp: notification channels and request ids are left out; the size test for snapshots is a parameter, and the map codec preserves values.
- KvRaft.KVServer.SaveSnapshot: the size test is made by the caller.
- The shardkv servers and clients, labrpc, labgob, the testers, the map/reduce plugins and daemons.
