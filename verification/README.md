# Verified models of the distributed-systems labs

This project models the parts of the repository whose correctness is hardest to see, and proves in Dafny 4.11 that
they do what they are for. `dafny verify dfyconfig.toml` checks all of it.

**The linearizability checker (porcupine).** `CheckSingle` is the depth-first search with its doubly linked event list,
bit set, undo stack and memo table, written imperatively over heap nodes. It terminates, and it decides exactly whether a
legal order of the operations exists, whatever the model's step function is. The recorded partial linearizations are legal
and longest, so the visualizer's replay never panics, also after a timeout. `EntriesFaithful` carries the decision from
events to timed operations however ties are sorted, and `Locality` is the theorem that makes checking key by key sound and
complete, so that `CheckOperations` is exact for the whole store: it says Ok exactly if some order of the operations
explains every value that was read, as the last Put before it followed by all that was appended since.

**Shard migration.** Groups, controllers, clients and a network that keeps every message form one state machine. Over every
run the groups hold exactly one versioned map, changed by accepted Puts only; at most one group that a published
configuration names serves a shard, and it has the current contents. `WhoServes` says exactly when a request is refused
with ErrWrongGroup, and that it otherwise gets the value and version made by all requests accepted before, wherever they
were. From every reachable state the next configuration can be carried through and published.

**Raft.** Every handler of a peer is a method on an object, shown equal to a function on peer states. Over all handler
sequences with crashes the disk image equals memory, terms never fall and the applier stays inside the log. For clusters
with crashes, compaction and a network that loses, repeats and reorders messages: in every run without late votes there
is at most one leader a term, an elected peer stood with a log that was not behind those of its voters, and logs that
agree on one entry's term agree on everything before it. Four runs show where the code falls short: a late vote makes
two leaders in one term; an answer to a message of an earlier term makes a leader's send panic; and such an answer, or a
snapshot that is not beyond the receiver's own, makes two peers apply different commands at the same index. Without such
answers no send panics, and without both Leader Completeness and State Machine Safety hold, for services that take
snapshots of what they have been handed. What is applied was started at that index, what is handed over as a snapshot
was made for that index, and commands reach a service in order. A leader that keeps its log brings a follower up to date
exactly if the follower's snapshot does not reach the next index; a fifth run shows that it can, and that the follower
then stays behind. A peer that trims its log votes, answers and offers entries like one that keeps it, as long as nobody
asks for what it has trimmed.

**Shard rebalancing.** The greedy loops terminate, end even, and from an even start move only what has to move.

**Exactly-once and at-most-once clients.** The duplicate filter of `kvsrv`, and the meaning of OK, ErrVersion and ErrMaybe
of `kvraft1` clerks over the replicated log, up to the theorem that their histories, with the pending calls that took
effect, are linearizable in the sense of the checker above. In every reachable state every call can still return.

**MapReduce.** Whatever workers are slow, repeated or crash, when the coordinator is done the output files hold exactly the
lines of the sequential program. It is done exactly when all tasks are, and from every reachable state one worker can
bring it there.

## How the models read

- Where the code changes things in place, the model has a class or an array, and each method is proved against a function
  of the old state. Protocols are state machines: `Enabled` and `Next` over events, `IsRun` for runs, and a lemma per kind
  of step that shows the invariant is kept. Fields that only record what happened are marked as such.
- Networks keep every message forever and may deliver it any number of times in any order; a loss is a delivery that never
  comes, and a second delivery stands for a message that was sent twice, as heartbeats are. A crash is a step, and a process
  that stops is one that takes no further step.
- Clocks, timers and random choices are inputs or free choices of a run. Encoding and decoding lose nothing.
- Integers are unbounded except in the bit set, whose words are `bv64`.

## Assumptions

- Shard migration: one configuration for each number (`World.owner`), every configuration has a group, and a change to
  number n starts only while n - 1 is published. Each group is one atomic object.
- Raft elections and logs: no peer grants a vote in a term after accepting AppendEntries of that term (`NoLateVote`). The
  code clears the vote on AppendEntries even in the current term, so this does not hold by itself: `TwoLeaders` is a run of
  three peers with two leaders in term 1.
- Raft's Leader Completeness and State Machine Safety (`Careful`): in addition, the service takes snapshots of entries it
  has been handed only (`Orderly`), and two things that do not hold by themselves. No peer uses an answer to a message of an
  earlier term; the code tells answers apart by the previous index only, and `RaftDivergence.TwoCommands` is a run of five
  peers in which two of them apply different commands at index 2. And no peer drops its log for a leader's snapshot that is
  not beyond its own; the code compares it with the commit index only, which repeated AppendEntries take back, and
  `RaftOldSnapshot.TwoCommands` is a run of three peers in which two of them apply different commands at index 2.
- kvraft1: all replicas execute one agreed log, in the order of its indices; a pair of index and term is used for one log
  entry only, which `StartedOnce` proves of Raft in runs without late votes; for ErrMaybe, the version passed is not above
  the current one. `EffectAfterReturn` gives, for every version above the current one, a run in which the Put takes effect
  after its caller was told ErrMaybe.
- Shard rebalancing: fewer than 257 shards, the sentinel of the scan for the least load.
- MapReduce: Map is deterministic, Reduce does not depend on the order of values, and no two workers pick the same
  temporary file name. A job without input files never ends (`NeverDone`).
- Porcupine: each operation returns no earlier than it was called, and the history to be checked in parallel is not empty.

## Model

| member | source | states |
|---|---|---|
| Bitset.MembersOfSet | src/porcupine/bitset.go:29-33 | setting a bit adds exactly that position to the set the words stand for |
| Bitset.MembersOfClear | src/porcupine/bitset.go:35-39 | clearing a bit removes exactly that position |
| Bitset.ClearUndoesSet | src/porcupine/bitset.go:29-39 | clearing a bit that was not set before gives back the very same words |
| Bitset.New | src/porcupine/bitset.go:10-17 | a new bit set has room for all positions and stands for the empty set |
| Bitset.Clone | src/porcupine/bitset.go:19-23 | a clone is a fresh array with the same words |
| Bitset.Set | src/porcupine/bitset.go:29-33 | changes the array in place to the words with the bit set |
| Bitset.Clear | src/porcupine/bitset.go:35-39 | changes the array in place to the words with the bit cleared |
| Bitset.Get | src/porcupine/bitset.go:41-44 | true exactly for members of the set |
| Bitset.Equals | src/porcupine/bitset.go:62-72 | true exactly when the words are the same |
| Bitset.PopCount | src/porcupine/bitset.go:46-52 | the number of members of the set |
| Bitset.Hash | src/porcupine/bitset.go:54-60 | a function of the words alone, so equal bit sets hash equally |
| Entries.MakeEntries | src/porcupine/checker.go:48-60 | lists a call and a return for every operation, sorted by time with calls before returns at equal times |
| Entries.SortedWellFormed | src/porcupine/checker.go:39-60 | any such sorted list has each operation's call once and its return once and later |
| Entries.OrderIsTime | src/porcupine/checker.go:39-46 | a return stands before a call exactly when its time is smaller, however ties fall |
| Entries.EntriesFaithful | src/porcupine/checker.go:48-60 | the events have a complete legal order exactly when the timed operations are linearizable |
| EventList.Links.UnliftUndoesLift | src/porcupine/checker.go:159-177 | unlift restores every pointer that lift changed, also for adjacent call and return and for a return at the end |
| EventList.Links.ChainLift | src/porcupine/checker.go:159-177 | after lift the list links exactly the remaining events in order, and unlift gives back the list before |
| EventList.Lift | src/porcupine/checker.go:159-167 | rewrites the pointers of the heap nodes to those of the list without the call and its return |
| EventList.Unlift | src/porcupine/checker.go:169-177 | rewrites the pointers of the heap nodes to those of the list with both put back |
| EventListBuild.InsertBefore | src/porcupine/checker.go:70-81 | puts a node in front of a list of nodes |
| EventListBuild.MakeLinkedEntries | src/porcupine/checker.go:121-138 | builds fresh nodes, in the order of the events, with each call pointing to its return |
| EventListBuild.Length | src/porcupine/checker.go:83-90 | counts the nodes |
| Checker.CacheContains | src/porcupine/checker.go:145-152 | exact membership in the set of cached pairs of bit set and state |
| Checker.CacheAdd | src/porcupine/checker.go:201-202 | adds exactly one pair to the set of cached pairs |
| Checker.LiftStep | src/porcupine/checker.go:198-207 | the list after taking a call is the history without the taken operations |
| Search.Task.AdvanceKeeps | src/porcupine/checker.go:208-213 | passing over a call keeps the memo invariant: everything cached and off the stack has been explored |
| Search.Task.PushKeeps | src/porcupine/checker.go:198-207 | taking a call keeps the memo invariant |
| Search.Task.PopKeeps | src/porcupine/checker.go:235-241 | going back keeps the memo invariant |
| Search.Task.Exhausted | src/porcupine/checker.go:215-217 | stopping at a return with an empty stack means that no complete legal order exists |
| Search.Task.RecordedIsLongest | src/porcupine/checker.go:218-234 | what was recorded at the backtracks of a failed search is longest for every operation |
| Checker.RecordLongest | src/porcupine/checker.go:218-234 | records the stack for the operations for which it is longer than the record, and nothing else |
| Checker.Forward | src/porcupine/checker.go:194-213 | the branch for a call keeps the search invariant and makes the termination measure fall |
| Checker.Backtrack | src/porcupine/checker.go:235-241 | the branch for a return undoes the last call completely: list, bits, state and stack |
| Checker.CheckSingle | src/porcupine/checker.go:179-253 | terminates; true gives a complete legal order, false without kill means there is none; records are legal, and longest when asked for |
| Checker.CompleteRecords | src/porcupine/checker.go:244-252 | the complete order is the longest record for every operation |
| ParallelChecker.CheckParallel | src/porcupine/checker.go:274-353 | Ok means every partition has a legal order, Illegal that one has none, Unknown that the timeout came before the last result and after good ones only; with information wanted, every recorded order of every partition is a legal start of a linearization, also of searches that were killed, and without a timeout they are longest for every operation |
| ParallelChecker.UniquePartials | src/porcupine/checker.go:322-336 | the recorded orders, each once |
| ParallelChecker.CheckOperations | src/porcupine/checker.go:365-373 | Ok means that the operations can be ordered so that real time is respected and every get returns the last put on its key followed by all appends since; Illegal that they cannot |
| KvModel.AcceptsOneKey | src/models/kv.go:41-57 | the model accepts a sequence on one key exactly if every get, and every append with return value, returns the last put before it followed by all values appended since, in order |
| KvModel.AcceptsAllKeys | src/models/kv.go:17-57 | the same for all keys together |
| KvModel.LinearizableIsExplained | src/models/kv.go:41-57 | so a history is linearizable exactly if some order explains every value read |
| KvModel.Partition | src/models/kv.go:18-34 | splits the history into the subsequences of its keys, keys sorted and distinct |
| Locality.RunProduct | src/models/kv.go:40-57 | a sequence is legal for the store of all keys exactly when its part for each key is legal for one key |
| Locality.SplitLinearization | src/porcupine/model.go:28-31 | a linearization of the whole gives one of each part |
| Locality.JoinLinearizations | src/porcupine/model.go:28-31 | linearizations of the parts merge into one of the whole that respects real time |
| Locality.Locality | src/models/kv.go:18-57 | the whole is linearizable if and only if every part is |
| Visualization.CollectValues | src/porcupine/visualization.go:38-53 | finds the client, times, description, call and return value of every operation |
| Visualization.ReplayOne | src/porcupine/visualization.go:63-77 | the model accepts every step of a recorded sequence, so the panic is unreachable; the states shown are those of the run |
| Visualization.Replay | src/porcupine/visualization.go:54-84 | draws all records longest first, with the states of the run, and names for each operation a longest record that has it |
| Visualization.ComputeData | src/porcupine/visualization.go:33-87 | does so for every partition |
| CheckedDrawing.CheckAndDraw | src/porcupine/visualization.go:33-87 | whatever the check records meets what the replay needs, so the panic is unreachable from a check |
| CheckedDrawing.DrawnAsCalled | src/porcupine/visualization.go:43-53 | an operation is drawn for its client, from its call to its return |
| VersionedMap.Refines | lec-2025/src/models1/kv.go:49-63 | executing an operation is a step of the one-key model of its key and leaves the others alone |
| VersionedMap.AnswerIsRight | lec-2025/src/kvraft1/server.go:38-125 | a Get is answered with the value of the last accepted Put on its key and the number of accepted Puts, or with ErrNoKey if there is none; a Put is accepted exactly if its version is that number |
| VersionedMap.HoldsMore | lec-2025/src/kvraft1/server.go:38-125 | after any operation the store holds exactly what the accepted Puts wrote |
| ShardGroup.KVServer.DoOp | lec-2025/src/shardkv1/shardgrp/server.go:39-217 | rejects a migrated or frozen shard, otherwise answers and changes the store as a versioned map |
| ShardGroup.KVServer.Collect | lec-2025/src/shardkv1/shardgrp/server.go:300-306 | collects exactly the pairs of one shard |
| ShardGroup.KVServer.DoFreezeShard | lec-2025/src/shardkv1/shardgrp/server.go:251-320 | refuses an older number, repeats the data for an equal one (none once handed over), freezes and hands out the shard for a newer one |
| ShardGroup.KVServer.DoInstallShard | lec-2025/src/shardkv1/shardgrp/server.go:322-369 | acts on a newer number only: writes the data over what is there, so old keys that the data lacks stay, and opens the shard |
| ShardGroup.KVServer.DoDeleteShard | lec-2025/src/shardkv1/shardgrp/server.go:371-416 | marks the shard as handed over for an equal or newer number, and erases its pairs for a newer one only |
| ShardGroup.AnswersTell | lec-2025/src/shardkv1/shardgrp/server.go:251-416 | OK means that no later migration of the shard has come to the group, ErrMaybe that one has |
| ShardMigration.CheckStep | lec-2025/src/shardkv1/shardctrler/shardctrler.go:247-268 | asking for a freeze, or skipping a shard that has moved on, keeps the invariant |
| ShardMigration.ProceedStep | lec-2025/src/shardkv1/shardctrler/shardctrler.go:266-294 | passing from freeze to install to delete keeps the invariant |
| ShardMigration.PublishStep | lec-2025/src/shardkv1/shardctrler/shardctrler.go:236-242 | the versioned write of "latest" keeps the invariant, because it fails unless every moved shard is at its new owner |
| ShardMigration.InstallIsCurrent | lec-2025/src/shardkv1/shardgrp/server.go:322-369 | an install that is not a repetition carries the current contents of the shard |
| ShardMigration.NotHolder | lec-2025/src/shardkv1/shardgrp/server.go:386-392 | a delete that finds its own number hits a group that gave the shard away for good |
| ShardMigration.FreezeStep | lec-2025/src/shardkv1/shardgrp/server.go:251-320 | any freeze request, however late or repeated, keeps the invariant |
| ShardMigration.InstallStep | lec-2025/src/shardkv1/shardgrp/server.go:322-369 | any install request keeps the invariant, also at a group that still has old keys |
| ShardMigration.DeleteStep | lec-2025/src/shardkv1/shardgrp/server.go:371-416 | any delete request keeps the invariant and every stored pair |
| ShardMigration.ServeStep | lec-2025/src/shardkv1/shardgrp/server.go:62-215 | a client's request is refused without effect, or answered and executed as on the one versioned map |
| ShardMigration.Refinement | lec-2025/src/shardkv1/shardgrp/server.go:251-416 | in every run the groups hold the versioned map made by the accepted requests, and answer as it does |
| ShardMigration.ExclusiveService | lec-2025/src/shardkv1/shardgrp/server.go:62-136 | in every reachable state at most one group named by a published configuration accepts a shard, and it has the current contents |
| ShardMigration.Conserved | lec-2025/src/shardkv1/shardgrp/server.go:251-416 | in every reachable state the current or the next owner holds all of a shard, and no group a key of it that the map lacks |
| ShardMigration.DeleteErasesNothing | lec-2025/src/shardkv1/shardctrler/shardctrler.go:288-293 | in every run a delete after a migration erases no pair |
| ShardMigration.WhoAccepts | lec-2025/src/shardkv1/shardgrp/server.go:62-80 | in every reachable state a group accepts a shard exactly if no published configuration has named it for the shard, or it holds the shard and the shard is not on its way to the next owner |
| ShardMigration.WhoServes | lec-2025/src/shardkv1/shardgrp/server.go:62-136 | in every run a request is refused with ErrWrongGroup exactly if the group, which a published configuration has named, does not hold the shard or the shard is on its way; otherwise it gets the right answer after all requests accepted so far, at whatever groups |
| ShardMigration.CanPublish | lec-2025/src/shardkv1/shardctrler/shardctrler.go:236-294 | from every reachable state, whatever was left half done, a controller can carry the next configuration through and publish it without changing the map |
| RaftServer.Raft.constructor | lec-2025/src/raft1/raft.go:1053-1107 | a peer starts from its disk image, or from term 0 with the dummy entry |
| RaftServer.Raft.ReadPersist | lec-2025/src/raft1/raft.go:115-148 | takes term, vote, log and snapshot position from the disk; an empty disk changes nothing |
| RaftServer.Raft.Persist | lec-2025/src/raft1/raft.go:99-111 | the disk then holds term, vote, log and snapshot position |
| RaftServer.Raft.GetLogTerm | lec-2025/src/raft1/raft.go:236-250 | the term of an entry, -1 outside the log |
| RaftServer.Raft.RequestVote | lec-2025/src/raft1/raft.go:272-316 | grants exactly when the term is not old, no other vote is out in it and the candidate's log is not behind; a later term clears the vote first; all changes are on disk |
| RaftServer.Raft.AppendEntries | lec-2025/src/raft1/raft.go:340-454 | refuses an old term; otherwise follows, clears the vote, and merges the entries behind a matching previous entry or says where to try next; both accepting branches are one merge |
| RaftServer.Raft.MergeEntries | lec-2025/src/raft1/raft.go:387-417 | the loop keeps agreeing entries and cuts at the first disagreement, and the disk follows |
| RaftServer.Raft.FindConflict | lec-2025/src/raft1/raft.go:433-439 | where the run of conflicting terms begins |
| RaftNode.ConflictRange | lec-2025/src/raft1/raft.go:433-439 | the leader is sent back to just behind the last entry of a smaller term |
| RaftServer.Raft.InstallSnapshot | lec-2025/src/raft1/raft.go:472-548 | ignores what is already committed; otherwise keeps the log behind a matching entry, or drops all of it, counts the snapshot as applied, saves it with the log, and hands it to the service |
| RaftServer.Raft.Snapshot | lec-2025/src/raft1/raft.go:173-226 | trims the log at the index, or empties it when the index is beyond, never moves the applied index back, and saves the snapshot with the log |
| RaftServer.Raft.StartElection | lec-2025/src/raft1/raft.go:604-628 | new term, own vote, and the request sent |
| RaftServer.Raft.Lead | lec-2025/src/raft1/raft.go:636-690 | a new leader sends to everybody from the end of its log on, and knows of no log but its own |
| RaftServer.Raft.ReceiveVote | lec-2025/src/raft1/raft.go:636-690 | steps down, counts one vote a peer, or becomes leader with fresh indices |
| RaftServer.Raft.Start | lec-2025/src/raft1/raft.go:707-732 | a leader appends the command and tells its index |
| RaftServer.Raft.ReceiveAppend | lec-2025/src/raft1/raft.go:799-832 | steps down for a later term, ignores an answer for another previous index, moves the peer's indices on success and then commits up to what a majority holds, and moves back on conflict |
| RaftServer.Raft.CommitAgreed | lec-2025/src/raft1/raft.go:853-873 | commits up to the highest index that a majority holds, if its entry is of the current term |
| RaftServer.MiddleIsAgreed | lec-2025/src/raft1/raft.go:860-869 | the middle of the sorted indices is the highest one that a majority has reached |
| RaftServer.Raft.ReceiveSnapshot | lec-2025/src/raft1/raft.go:834-851 | steps down or moves the indices of the peer forward |
| RaftServer.Raft.Apply | lec-2025/src/raft1/raft.go:1004-1033 | hands out the next committed entry, whose index is inside the log |
| RaftServer.Raft.Send | lec-2025/src/raft1/raft.go:896-960 | a leader sends at most 200 entries from the peer's next index on, or its snapshot if it no longer has them; it panics exactly if the next index is more than one behind the end of the log |
| RaftNode.StaysValid | lec-2025/src/raft1/raft.go:99-226 | every handler keeps disk and memory equal, the dummy head's term, and the index bounds, and never lowers the term |
| RaftNode.NodeInvariant | lec-2025/src/raft1/raft.go:1004-1042 | the same over every sequence of handlers with restarts; the applier's index is always inside the log |
| RaftCluster.ElectionSafety | lec-2025/src/raft1/raft.go:604-693 | two winners of a term are one, by quorum intersection and bound votes |
| RaftCluster.VoteElects | lec-2025/src/raft1/raft.go:272-316 | granting a vote keeps every voter bound to one candidate a term |
| RaftCluster.CountElects | lec-2025/src/raft1/raft.go:642-687 | counting votes keeps every count backed by ballots, and a winner has a majority |
| RaftCluster.AppendElects | lec-2025/src/raft1/raft.go:354-361 | clearing the vote on AppendEntries keeps the election record consistent |
| RaftCluster.AtMostOneLeader | lec-2025/src/raft1/raft.go:604-693 | in every run without late votes, leaders of the same term at any two times are the same peer |
| RaftRestriction.GrantedNotAhead | lec-2025/src/raft1/raft.go:291-297 | a vote goes only to a candidate whose log end is not behind the voter's, by term and then index, and in a new term to every such candidate |
| RaftRestriction.ElectionRestriction | lec-2025/src/raft1/raft.go:604-693 | in every run without late votes, an elected peer had a majority whose logs, when they voted, were not ahead of the log it stood with |
| RaftRestriction.WinsAsItStood | lec-2025/src/raft1/raft.go:604-693 | if snapshots are of what is in the log, the log with which a peer wins ends where the log ended with which it stood, also if a snapshot came between |
| RaftLogs.MergeGlues | lec-2025/src/raft1/raft.go:385-417 | the merge keeps the follower's log, or continues it with the leader's behind an index at which both have the same term |
| RaftLogs.GluedAgrees | lec-2025/src/raft1/raft.go:340-454 | a log continued in this way agrees with every log with which both agree |
| RaftLogs.LogMatching | lec-2025/src/raft1/raft.go:340-454 | in every run without late votes, logs with the same term at an index hold the same entries up to it, as far as neither has given them up for a snapshot |
| RaftLateVote.TwoLeaders | lec-2025/src/raft1/raft.go:354-361 | a run of three peers in which a late vote makes two leaders in term 1 |
| RaftOldAnswers.SendCanPanic | lec-2025/src/raft1/raft.go:811-819 | a run of five peers without late votes in which an answer to a message of an earlier term moves a next index beyond the log, so that the next send panics |
| RaftNextIndex.SendNeverPanics | lec-2025/src/raft1/raft.go:896-960 | in every run without late votes in which no such answer is used, no send panics |
| RaftDivergence.TwoCommands | lec-2025/src/raft1/raft.go:811-819 | a run of five peers without late votes in which such an answer lets two peers apply different commands at index 2 |
| RaftOldSnapshot.TwoCommands | lec-2025/src/raft1/raft.go:489-516 | a run of three peers, without late votes or old answers and with snapshots of applied entries only, in which a snapshot that is not beyond the receiver's own lets two peers apply different commands at index 2 |
| RaftBooks.MergeKeeps | lec-2025/src/raft1/raft.go:385-417 | the merge keeps whatever the follower's log and the leader's log have in common |
| RaftBooks.BooksStep | lec-2025/src/raft1/raft.go:173-548 | every step keeps the whole logs of all peers made of the logs that the leaders of their entries' terms built |
| RaftCompleteness.AppendLoyal | lec-2025/src/raft1/raft.go:340-454 | a follower that takes entries keeps what it has acknowledged, unless a later leader won without it |
| RaftCompleteness.InstallLoyal | lec-2025/src/raft1/raft.go:472-548 | so does one that takes a snapshot beyond its own |
| RaftCompleteness.NotBehind | lec-2025/src/raft1/raft.go:291-297 | a log that is not behind the voter's has what the voter has acknowledged, if the leaders between had it |
| RaftCompleteness.LeaderCompleteness | lec-2025/src/raft1/raft.go:604-693 | an entry that a majority has taken in its own term is in the log with which every later leader wins |
| RaftSafety.CommitChosen | lec-2025/src/raft1/raft.go:853-873 | what a leader commits has been taken by a majority in its term, although its belief may come from its snapshot |
| RaftSafety.MergeApplied | lec-2025/src/raft1/raft.go:385-417 | entries from a leader do not touch what a follower has applied |
| RaftSafety.SafeNext | lec-2025/src/raft1/raft.go:173-1042 | every careful step keeps what is committed, applied or offered as committed among what a majority has taken |
| RaftSafety.StateMachineSafety | lec-2025/src/raft1/raft.go:1004-1042 | in every careful run, two peers that apply an entry at the same index, at whatever times, apply the same |
| RaftOrigin.StartsAt | lec-2025/src/raft1/raft.go:707-732 | Start puts the command behind the leader's log, at the index that it names |
| RaftOrigin.SnapshotsWereMade | lec-2025/src/raft1/raft.go:173-226 | in every run the snapshot that a peer keeps, also over crashes, sends or hands to its service is one that some service handed over for this index |
| RaftOrigin.AppliedWasStarted | lec-2025/src/raft1/raft.go:707-732 | in every run an entry applied at an index was put there by a call of Start that named this index |
| RaftStarts.StartedOnce | lec-2025/src/raft1/raft.go:707-732 | in every run without late votes the indices that Start names in a term increase, whoever is asked |
| RaftStarts.AppliedIsOwn | lec-2025/src/raft1/raft.go:707-732 | so an entry of the term at the index that Start named is the one that was started |
| RaftStarts.CountsItself | lec-2025/src/raft1/raft.go:675-690 | in every run without late votes, with snapshots of what is in the log, a leader counts its whole log as held by itself |
| RaftDelivery.InOrder | lec-2025/src/raft1/raft.go:1004-1042 | in every run a command handed to a service is the next one behind what the service has from commands, snapshots and restarts |
| RaftCatchUp.RoundForward | lec-2025/src/raft1/raft.go:799-820 | where leader and follower meet at the previous index, a round of AppendEntries moves the meeting point, and what the leader knows of it, forward |
| RaftCatchUp.RoundBack | lec-2025/src/raft1/raft.go:820-830 | where they do not, it moves the next index back, but not behind the follower's snapshot |
| RaftCatchUp.CatchesUpIff | lec-2025/src/raft1/raft.go:799-832 | for logs that meet at the end of the follower's snapshot, finitely many rounds bring the follower up to date exactly if the next index is beyond that snapshot; otherwise every round ends where it began |
| RaftCatchUp.CatchesUpWithSnapshot | lec-2025/src/raft1/raft.go:834-851 | a follower that has not committed as far as the leader's snapshot is up to date after it and finitely many rounds |
| RaftCatchUp.BeginsAtEnd | lec-2025/src/raft1/raft.go:675-690 | a new leader's first message to a peer is about the end of its log and has no entries |
| RaftCatchUp.LaterTermWins | lec-2025/src/raft1/raft.go:340-361 | a peer with a later term refuses and its answer deposes the leader; any other takes the leader's term and its answer leaves the leader in office |
| RaftCatchUp.LaterTermRefuses | lec-2025/src/raft1/raft.go:272-316 | the same for a candidate and those that it asks |
| RaftBehind.FallsBehind | lec-2025/src/raft1/raft.go:441-444 | a run of three peers, with nothing late or old, that leads to a leader and a follower whose logs agree and which no number of rounds brings up to date |
| RaftCompaction.VoteSame | lec-2025/src/raft1/raft.go:272-316 | a trimmed peer votes as the peer with the whole log |
| RaftCompaction.AppendSame | lec-2025/src/raft1/raft.go:340-454 | from the snapshot on, AppendEntries succeeds at both or at neither and leaves the same entries |
| RaftCompaction.BelowSnapshotRefused | lec-2025/src/raft1/raft.go:441-444 | behind its snapshot a peer refuses and keeps its log |
| RaftCompaction.TrimSame | lec-2025/src/raft1/raft.go:173-226 | Snapshot loses nothing exactly when its index is inside the log |
| RaftCompaction.SendSame | lec-2025/src/raft1/raft.go:907-934 | a trimmed leader that still has what the peer needs offers the same entries |
| RaftCompaction.Transparent | lec-2025/src/raft1/raft.go:173-250 | over any sequence of inputs that ask for nothing trimmed, both peers give the same votes, append results, requests, offers and indices |
| ShardConfig.Config.Analyze | lec-2025/src/shardkv1/shardcfg/shardcfg.go:80-111 | the groups with most and least shards, the smallest id among equals, and their loads |
| ShardConfig.EnergyAfter | lec-2025/src/shardkv1/shardcfg/shardcfg.go:146-152 | how a move changes the sum of squared loads |
| ShardConfig.MoveKeeps | lec-2025/src/shardkv1/shardcfg/shardcfg.go:140-153 | a move from most to least two apart makes the sum of squares fall |
| ShardConfig.EvenIff | lec-2025/src/shardkv1/shardcfg/shardcfg.go:142-145 | the loop's exit test holds exactly when all loads are within one |
| ShardConfig.Config.Adopt | lec-2025/src/shardkv1/shardcfg/shardcfg.go:131-138 | every shard gets a member group, assigned shards stay, and even loads stay even |
| ShardConfig.MoveSettled | lec-2025/src/shardkv1/shardcfg/shardcfg.go:140-153 | after a join from an even start, the least loaded group is always a joining one |
| ShardConfig.Config.Rebalance | lec-2025/src/shardkv1/shardcfg/shardcfg.go:122-154 | terminates; all shards at member groups, loads within one; only strays move from even loads; nothing moves to groups that had all shards evenly |
| ShardConfig.Config.Join | lec-2025/src/shardkv1/shardcfg/shardcfg.go:156-183 | succeeds exactly for new groups without shared servers, and then adds them |
| ShardConfig.Config.Leave | lec-2025/src/shardkv1/shardcfg/shardcfg.go:185-205 | succeeds exactly for distinct members, and then removes them |
| ShardConfig.Config.JoinBalance | lec-2025/src/shardkv1/shardcfg/shardcfg.go:207-213 | even loads; from a balanced start shards move to joining groups only |
| ShardConfig.Config.LeaveBalance | lec-2025/src/shardkv1/shardcfg/shardcfg.go:215-221 | even loads; from a balanced start with a group remaining exactly the shards of leaving groups move |
| KvServer.KVServer.NewClient | src/kvsrv/server.go:34-40 | a fresh id that expects the given number |
| KvServer.KVServer.Get | src/kvsrv/server.go:42-56 | the value, empty for a missing key |
| KvServer.KVServer.Put | src/kvsrv/server.go:58-94 | registers a client without executing, executes the expected number once, and leaves the store alone for any other number |
| KvServer.KVServer.Append | src/kvsrv/server.go:96-134 | the same, and a repetition is answered with the value that the execution found |
| ExactlyOnce.ExecuteStep | src/kvsrv/server.go:119-126 | executing the expected number keeps the record of effects exact |
| ExactlyOnce.ReturnStep | src/kvsrv/client.go:83-87 | a clerk ends a call only on an acknowledgement of that call's effect |
| ExactlyOnce.AdoptStep | src/kvsrv/client.go:77-82 | taking the id of any of its registrations keeps ids apart |
| ExactlyOnce.RequestsServed | src/kvsrv/server.go:79-92 | no request names an id that the server has not given out |
| ExactlyOnce.AppliedExactlyOnce | src/kvsrv/server.go:58-134 | in every run the store has a key exactly if an effect wrote it, with the last Put on it followed by all later Appends, in order; every call has at most one effect, a returned one exactly one, and an Append returned what its effect found |
| ExactlyOnce.RemembersFound | src/kvsrv/server.go:119-128 | in every run the server remembers for every client the value that its last Append found |
| ExactlyOnce.CanReturn | src/kvsrv/client.go:65-93 | in every reachable state every call can still return, after at most two requests are served and answered |
| ExactlyOnce.EveryReturnRecorded | src/kvsrv/client.go:65-93 | every call that returned is among the recorded results |
| KvRaft.KVServer.DoOp | lec-2025/src/kvraft1/server.go:38-125 | answers and changes the store as a versioned map |
| PutOutcomes.MatchIsOwn | lec-2025/src/kvraft1/rsm/rsm.go:199-207 | the executed entry with the expected index and term is the attempt that waits for it |
| PutOutcomes.AtMostOnce | lec-2025/src/kvraft1/client.go:80-114 | however often it is sent, a Put takes effect at most once |
| PutOutcomes.OutcomeOfPut | lec-2025/src/kvraft1/client.go:80-114 | OK: one effect, before the return; ErrVersion: none ever, sent once and refused; ErrMaybe: sent again and refused at least once, and no effect after the return if the version was not above the current one |
| PutOutcomes.AnswersAreRight | lec-2025/src/kvraft1/server.go:38-125 | in every run every executed operation got the right answer after those executed before |
| PutOutcomes.CanReturn | lec-2025/src/kvraft1/client.go:80-114 | in every reachable state every call can still return |
| PutOutcomes.Linearizes | lec-2025/src/models1/kv.go:49-63 | every returned call has a point between its begin and return at which the one-key model takes it with the answer given, and no effect elsewhere |
| KvRaftHistory.ModelAccepts | lec-2025/src/models1/kv.go:45-68 | the model of the tests accepts a sequence exactly if every Get was told the value of the last accepted Put on its key, and every Put whether its version was the number of accepted Puts, or ErrMaybe |
| KvRaftHistory.HistoryLinearizable | lec-2025/src/models1/kv.go:26-67 | in whatever state, the history of all calls that returned, and of the pending Puts that took effect, is linearizable against that model: some order in real time makes everything that was told right |
| KvRaftHistory.RunsAreLinearizable | lec-2025/src/kvraft1/client.go:37-114 | the same in every state of every run of resending clerks |
| LateEffect.EffectAfterReturn | lec-2025/src/kvraft1/client.go:102-105 | for every current version and every greater one, a run in which a Put of the greater version takes effect after its caller was told ErrMaybe |
| MapReduceWork.Sequential | src/main/mrsequential.go:59-84 | one line for each key, keys increasing, with Reduce over all its values in some order; for a Reduce that does not depend on the order, the output of the pairs as given |
| MapReduceWork.MapBuckets | src/mr/worker.go:167-214 | bucket r gets exactly the pairs whose key hashes to r |
| MapReduceWork.GroupByKey | src/mr/worker.go:284-296 | for each key the values read, in order |
| MapReduceWork.ReduceLines | src/mr/worker.go:284-340 | the output of the pairs read: one line a key, keys increasing |
| MapReduce.LinesPermuted | src/mr/worker.go:284-340 | lists with the same pairs make the same lines |
| MapReduce.LinesOfBuckets | src/mr/worker.go:204-206 | the lines of a bucket are the lines of the whole whose keys hash to it |
| MapReduce.AllPieces | src/mr/worker.go:238-296 | reading every map task's file, in any order, gives the bucket of all pairs |
| MapReduceCoordinator.Master.HeartBeat | src/mr/coordinator.go:165-250 | gives out the first task of the phase that is idle or ten seconds old, never a finished one, and starts its clock; otherwise wait |
| MapReduceCoordinator.Master.Report | src/mr/coordinator.go:251-297 | marks the task; the phase is then done exactly if it was, or if it was reduce and all reduce tasks are finished, and still map exactly if it was and a map task is not finished |
| MapReduceCoordinator.GivenForTenSeconds | src/mr/coordinator.go:180-200 | a task that was given out is its worker's for ten seconds and then anybody's until it is finished |
| MapReduceProgress.DoneExactly | src/mr/coordinator.go:251-297 | in every reachable state a job with a map task is done exactly if all its map and reduce tasks are finished |
| MapReduceProgress.NeverDone | src/mr/coordinator.go:251-297 | a job without a map task stays in the map phase for good |
| MapReduceProgress.CanFinish | src/mr/worker.go:154-360 | from every reachable state of a job with a map task one worker can bring it to its end, whatever others left behind |
| MapReduceRun.ListOk | src/mr/worker.go:273-282 | a reduce worker that lists its files finds every piece, or its output is there already |
| MapReduceRun.OpenOk | src/mr/worker.go:255-271 | what it has opened so far are the pieces of the files listed so far |
| MapReduceRun.WriteOk | src/mr/worker.go:334-340 | what a worker writes is right, or comes too late to be used |
| MapReduceRun.RenameOutKeeps | src/mr/worker.go:341-345 | renaming after looking keeps every output right, also when another worker came first |
| MapReduceRun.DeleteKeeps | src/mr/worker.go:355-357 | deleting a reduce task's files keeps the invariant, because its output is there |
| MapReduceRun.DeliverKeeps | src/mr/coordinator.go:251-297 | the reduce phase opens with every intermediate file in place |
| MapReduceRun.DoneIsSequential | src/mr/worker.go:154-360 | in every run that is done the output files hold exactly the sequential program's lines, each in the file of its key |

## Left out

- Liveness: that calls, changes and jobs can always end is proved, and not that they do; election timing, heartbeats and the clerks' unbounded retry loops are free choices of a run.
- RaftCatchUp.CatchesUpIff: speaks of a leader and a follower that exchange messages undisturbed; a leader that trims its log past the next index goes on with its snapshot.
- RaftStarts.CountsItself: leaves out runs in which the service hands over a snapshot beyond the end of the log.
- RaftSafety.StateMachineSafety: leaves out runs that are not careful, some of which end well.
- RaftNextIndex.SendNeverPanics: leaves out runs in which an answer to a message of an earlier term is used, which need not lead to a panic.
- RaftRestriction.WinsAsItStood: leaves out runs in which the service hands over a snapshot beyond the end of the log.
- RaftServer.Raft.ReceiveVote: the per-election vote counter is the set of peers counted, since each peer's answer is handled once in an election.
- ShardMigration.PublishStep: recovery is taken to read the version of "latest" together with its number; a recovery that reads them apart is not modelled.
- ShardMigration.CheckStep: the controller's loops over shards are protocol steps, so the model has no sequential method for ChangeConfigTo; a removal to group 0 and a group without servers are not modelled.
- The shardkv1 clerk's meaning of ErrVersion and ErrMaybe across groups, where the resend status is lost on ErrWrongGroup.
- Snapshot and Restore of a shard group, which are empty in the source.
- KvRaftHistory.HistoryLinearizable: leaves out states in which a Put whose version was above the current one was answered with ErrMaybe.
- PutOutcomes.OutcomeOfPut: versions are unbounded, so 64-bit wrap-around of a version is not modelled.
- ParallelChecker.UniquePartials: compares recorded orders by contents, the source by address, so that it may list an order twice; the list is in the order of the operations, where the source has the order of a map.
- ParallelChecker.CheckParallel: the goroutines are taken one after the other in the order their results arrive; an empty list of partitions, on which the source waits forever, is excluded.
- Event-based histories (renumber, convertEntries, checkEvents) and default partitions, which would add only easy members.
- The clerks of kvsrv as loops: their retries are steps of the state machine, so the model has no method for PutAppend.
- MapReduceRun.DoneIsSequential: input and output errors, and two workers that pick the same temporary name, are not modelled.
- labrpc, labgob, sockets, plugins, the HTML visualizer, test harnesses and the unfilled lab skeletons.
