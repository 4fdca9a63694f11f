# IPTV node: verified models

This project models the stateful parts of an IPTV load-balancer node and proves what they keep, over all inputs and all
runs. `dafny verify dfyconfig.toml` checks everything. There is one module per component.

- **ConnectionRegistry, RegistryLaws, RegistryHistory**: the session records in Redis and the eight secondary indexes over
  them. Every MULTI block is one atomic step of class `Registry`. The sorted sets together are one map from (key, member)
  to score. RegistryHistory says what every index lists after any run at all.
- **ConnectionLimit, SessionSweep, Watchdog**: what works on top of the sessions: closing a line's oldest connections, the
  periodic sweep of the SQL table, and the per-server counts.
- **ServerSelection**: which server a client is sent to.
- **StreamMonitor, StreamRounds, StreamAttempts, PlaylistWait**: the goto machine that keeps one stream running, as a labelled transition system whose
  environment is arbitrary; and its wait loop, as the loop it is.
- **ArenaModel, ArenaHeap**: the two arena allocators of the shipped interpreter headers, as functions and as linked
  objects, both refining one abstract stack of allocations.
- **VodSender, FloodWindows, BouquetIndex, SourceFailover, BlockList, SignalQueue, Tokens**: the throttled file sender, the
  flood guards, the bouquet index and channel order, the choice of a source and the seek in created channels, the
  firewall reconciliation, the signal table, and the playback tokens.

Code that updates in place is a class with `modifies` clauses or a method with loops. Each such method is tied to a
specification function, and the laws are proved about that function.

## What the code does that one would not expect

Where the code does not keep what its users rely on, the model keeps the code's behaviour and the exact condition is proved.

- Opening a session that is already live and giving it another server leaves its old `SERVER#` and `SERVER_LINES#` entries
  behind and adds no new `SERVER_LINES#` entry. A step keeps the indexes exact if and only if it is not such a move
  (`StepKeepsConsistencyIff`). The stale entries even outlive the session (`MovedSessionLeaks`). All other indexes stay
  exact under every run, and `SERVER#` never misses an open session (`EveryRunKeepsWeakConsistency`). What the two
  per-server indexes list after any run is accounted for exactly, and all indexes are exact again, scores included, if and
  only if no trace of a move is left (`EveryRunIsAccounted`).
- Bulk deletion removes `SERVER_LINES#` entries without looking at the user id, unlike single removal. For any list of
  sessions, flushed in any chunks, the two agree if and only if every queued session without a user that is listed there
  is also queued as a session of some user on that server (`ChunkedBulkIsEachIff`). Exact indexes meet the condition.
- Closing connections down to a limit goes over the same list up to three times and counts a session again each time. So
  the limit can be missed (`LimitCanBeMissed`). It is met if and only if the number to close is at most the size of the
  first pass that finds anybody, plus the number of sessions matching the next pass that are older than the oldest of
  them (`LimitIsMetIff`); `ClosedSessions` counts what is closed otherwise.
- In the monitor a start that returns 0 always ends the process, because 0 is also falsy. So the `stop_failures` setting
  makes no difference (`FailureLimitIsIrrelevant`) and the jump over the wait loop is dead (`FirstZeroIsLast`).
- A created channel is started twice in one attempt, because `label933` stands inside its block. An attempt makes two start
  calls if and only if it enters that block, and one otherwise (`CreatedStartsTwiceIff`, `CallsOverRuns`).
- The film branch of the server filter assigns `'srt'` to the extension where a comparison was meant. So a container
  never excludes a server, and a mismatch switches off the local-server rule for rtmp (`EligibleServers`, `ChannelInfo`).
- Sorting channels returns the array with keys and values swapped if and only if the order knows none of them
  (`SortChannels`), and nothing is lost if and only if it knows all (`NothingIsLostIff`).
- DROP rules whose source is not an address are never deleted, and an address listed in another spelling than the firewall
  prints, such as an IPv6 address in capitals, is deleted and added anew in every run (`CapitalsNeverSettle`). A second
  reconciliation finds nothing to do if and only if every listed address is spelled as the firewall prints it and no other
  string stands in the way (`SecondRunIsEmptyIff`).
- An update request for a stream is skipped while an equal row is in the signal table, also when the receiver has already
  acted on that row and is about to delete it. The request can be swallowed, by some continuation that clears the table of
  equal rows without acting on any, if and only if equal rows are queued and the receiver is past all of them in its batch
  (`RequestIsSwallowedIff`, `RequestCanBeLost`). A receiver that dies before its deletion revives the request
  (`CrashRevives`).
- The arena allocator checks no overflow: an allocation keeps its blocks and arenas well placed if and only if the rounded
  request and a header fit in a `size_t` (`AllocKeepsBumpIff`).
- A segment token survives if and only if no field contains a slash and the username is not `TS` (`SegmentRoundTripIff`).
- A playlist token made of hex digits only is taken for an access token and never decrypted, which the ciphertext decides and
  not the fields (`HexTokenIsLost`). A playlist token is read as what was printed if and only if it is not of that kind, no
  field contains a slash, the kind is a plain one, and an extension left out is the one beside the token or `ts`
  (`PlayRoundTripIff`).

## Model

| member | source | states |
|---|---|---|
| `ConnectionRegistry.ConsistentIsUnique` | includes/streaming.php:1249-1306 | exact indexes are a function of the records: two consistent stores with the same records are equal |
| `ConnectionRegistry.Registry.constructor` | includes/streaming.php:1249-1253 | a new registry is the empty store |
| `ConnectionRegistry.Registry.CreateConnection` | includes/streaming.php:1249-1265 | the block adds the record and its entry in every index that wants it, with the right scores, and nothing else |
| `ConnectionRegistry.Registry.UpdateConnection` | includes/streaming.php:1266-1306 | open relists the changed record, close unlists it under its original keys, SERVER_LINES# only on a change of hls_end; the new record is returned, column by column |
| `ConnectionRegistry.Registry.RemoveConnection` | includes/streaming.php:620-633 | the block removes the record and all entries its fields name |
| `ConnectionRegistry.Registry.Resync` | crons/users.php:34-55 | copying the open SQL rows is a sequence of creations |
| `ConnectionRegistry.Registry.ProcessDeletions` | crons/users.php:79-133 | the grouped deletion removes exactly the records and entries the accumulator names, announces each queued connection to its own server, drops the named marker files and hands back an empty accumulator |
| `ConnectionRegistry.Announce` | crons/users.php:111-123 | a delete_con signal for every queued connection of another server, as often as it is queued, and none to oneself |
| `ConnectionRegistry.DropBatch` | crons/users.php:84-98 | all grouped zRem calls together remove exactly the entries the batch names, in any walk order |
| `RegistryLaws.CreateKeeps` | includes/streaming.php:1249-1265 | creating a fresh uuid keeps exact and weakly exact indexes |
| `RegistryLaws.UpdateKeeps` | includes/streaming.php:1266-1306 | open, close and touch keep the indexes exact unless a live session changes server, and weakly exact always |
| `RegistryLaws.RemoveKeeps` | includes/streaming.php:620-633 | removal keeps exact and weakly exact indexes |
| `RegistryLaws.ResyncKeeps` | crons/users.php:34-55 | a resync of rows with fresh, distinct uuids keeps the indexes exact |
| `RegistryLaws.CreatedFromRow` | crons/users.php:39-53 | one copied row is a live record with the row's columns, listed under exactly the keys that the columns name |
| `RegistryLaws.ResyncedRow` | crons/users.php:34-55 | after a resync every row is a live record with its own columns, each index lists it where they say, scored by its start or its user, and nothing else is added |
| `RegistryLaws.StepKeeps` | includes/streaming.php:1249-1306 | every kind of step keeps the invariant unless it moves a live session |
| `RegistryLaws.StepKeepsConsistencyIff` | includes/streaming.php:1273-1285 | a step keeps the indexes exact if and only if it moves no live session |
| `RegistryLaws.RunKeepsConsistency` | wwwdir/streaming/live.php:188-206 | every run without such a move ends with all indexes equal to what the records define |
| `RegistryLaws.EveryRunKeepsWeakConsistency` | wwwdir/streaming/live.php:188-206 | after any run at all six indexes are exact and SERVER# misses no open session |
| `RegistryLaws.FromEmpty` | includes/streaming.php:1249-1306 | both facts hold for every run from the empty store |
| `RegistryLaws.MovedSession` | includes/streaming.php:1273-1285 | a move leaves exactly the old SERVER# and SERVER_LINES# entries, lacks exactly the new SERVER_LINES# entry and touches nothing else |
| `RegistryLaws.MovedSessionLeaks` | includes/streaming.php:620-633 | removing a moved session leaves exactly those stale entries without a record |
| `RegistryLaws.BatchMeans` | crons/users.php:182-188 | the accumulator names an entry if and only if one of the queued sessions does |
| `RegistryLaws.EachMeans` | includes/streaming.php:620-633 | single removals in a row drop exactly the entries that some removed session names |
| `RegistryLaws.EachIsAnnounced` | crons/users.php:111-123 | every queued session of another server is announced to that server, exactly as often as it is queued |
| `RegistryLaws.BulkIsEachIff` | crons/users.php:79-103 | one grouped deletion equals removing its sessions one by one if and only if no userless session is listed in SERVER_LINES# without being queued for a user there too |
| `RegistryLaws.EachOfTwo` | includes/streaming.php:620-633 | removing two lists in a row is removing their concatenation |
| `RegistryLaws.ChunksAreOne` | crons/users.php:190-192 | it makes no difference at which points the accumulator is flushed |
| `RegistryLaws.ChunkedBulkIsEachIff` | crons/users.php:190-192 | flushing at any points gives the store of single removals under exactly that condition |
| `RegistryLaws.BulkOfOneIff` | crons/users.php:93-94 | for one session the condition is that it has a user or is not listed in SERVER_LINES# |
| `RegistryLaws.ConsistentHasNoStrayLines` | includes/streaming.php:1258-1260 | exact indexes list no userless session, so they meet the condition |
| `RegistryLaws.BulkKeeps` | crons/users.php:79-103 | bulk deletion keeps exact and weakly exact indexes |
| `RegistryHistory.StepAccount` | includes/streaming.php:1266-1306 | every step, moves of live sessions included, keeps the account of stale and lacking entries and of scores |
| `RegistryHistory.RunAccount` | wwwdir/streaming/live.php:188-206 | so does every run |
| `RegistryHistory.ListsTrueIff` | includes/streaming.php:1273-1285 | the indexes list exactly what the records say if and only if nothing is stale or lacking |
| `RegistryHistory.ConsistentIff` | includes/streaming.php:1273-1285 | and then their scores are right too |
| `RegistryHistory.EveryRunIsAccounted` | wwwdir/streaming/live.php:188-206 | after any run from the empty store every index lists what the records say, minus what the history says is lacking, plus what it says is stale; all indexes are exact, scores included, if and only if no trace is left |
| `ConnectionLimit.OnePass` | includes/streaming.php:448-475 | one pass closes the first matching connections in order, up to the room left, and removes just them from the registry |
| `ConnectionLimit.CloseConnections` | includes/streaming.php:412-503 | the closed positions are the first toKill elements of the passes in a row; the registry loses just those sessions |
| `ConnectionLimit.NextPass` | includes/streaming.php:448-475 | each further pass continues the one list of close events up to toKill |
| `ConnectionLimit.RemoveNonHls` | includes/streaming.php:477-496 | the final block removes what has been removed already, so it changes nothing |
| `ConnectionLimit.AllPassesAre` | includes/streaming.php:439-447 | the passes in a row are the address-and-agent, the address and the unrestricted list, depending on what is known |
| `ConnectionLimit.PassMeans` | includes/streaming.php:452-455 | a pass lists every matching position once, in increasing order |
| `ConnectionLimit.WhoIsInWhichPass` | includes/streaming.php:439-455 | who is in which pass, by address, agent and process of the rows, and never the caller |
| `ConnectionLimit.RemovingAgain` | includes/streaming.php:620-633 | removing a removed session again changes nothing |
| `ConnectionLimit.ClosingKeepsConsistency` | includes/streaming.php:456-457 | closing, however often each, keeps the registry exact and removes exactly the closed sessions |
| `ConnectionLimit.ThirdIsDistinct` | includes/streaming.php:448-475 | at least a third of the close events are distinct sessions |
| `ConnectionLimit.KilledBounds` | includes/streaming.php:449-453 | never more close events than asked for, never the caller itself, at least a third distinct |
| `ConnectionLimit.OldestForeignAreKilled` | includes/streaming.php:448-475 | if nobody shares the caller's address the victims are the oldest foreign sessions, and exactly the limit survives if there are enough |
| `ConnectionLimit.FillsIff` | includes/streaming.php:448-475 | a prefix of the three lists has no repetition if and only if they fill up without one |
| `ConnectionLimit.FillsUpToReach` | includes/streaming.php:448-475 | they fill up without repetition exactly up to a number counted from the rows |
| `ConnectionLimit.ClosedSessions` | includes/streaming.php:448-475 | how many sessions are really closed, whatever the number asked for |
| `ConnectionLimit.LimitIsMetIff` | includes/streaming.php:448-475 | exactly the limit survives if and only if the number to close is at most the first pass that finds anybody plus the older matches of the next pass |
| `ConnectionLimit.LimitCanBeMissed` | includes/streaming.php:448-475 | a concrete list of three sessions with limit one of which two survive |
| `SessionSweep.CloseOverdue` | crons/users.php:195-287 | the first loop closes exactly the overdue rows and counts the un-ended rows as they were before |
| `SessionSweep.WhatIsOverdue` | crons/users.php:199-282 | the reasons for which a row served here is closed, each by itself |
| `SessionSweep.CloseExcess` | crons/users.php:288-313 | the second loop closes exactly the oldest un-ended rows beyond the limit |
| `SessionSweep.SweepLine` | crons/users.php:194-313 | a line loses its overdue rows and its oldest excess rows |
| `SessionSweep.WithinLimit` | crons/users.php:288-313 | a line that has lost those rows, and perhaps others, is within its limit |
| `SessionSweep.SessionTable.Sweep` | crons/users.php:194-324 | the table loses exactly the rows the lines lose, with a deletion after every line |
| `SessionSweep.SweepEnforcesLimits` | crons/users.php:194-324 | after the sweep no swept line with a limit has more un-ended rows than its limit |
| `SessionSweep.RowGoesIff` | crons/users.php:194-324 | a row goes if and only if it is overdue or among the oldest (active - max) un-ended rows of its own line |
| `SessionSweep.SurvivorsAre` | crons/users.php:194-324 | a swept line keeps exactly its newest un-ended rows up to the limit, less the overdue ones |
| `SessionSweep.ExcessIs` | crons/users.php:288-313 | too many are the un-ended rows beyond the limit of a known line that has one |
| `SessionSweep.KeepsExactly` | crons/users.php:288-313 | without overdue rows it keeps exactly min(active, max) un-ended rows |
| `Watchdog.FetchReplies` | includes/cli_tool/watchdog.php:60-66 | reply pair j answers for the j-th online server |
| `Watchdog.Tally` | includes/cli_tool/watchdog.php:68-77 | the second loop stays aligned with the first and counts distinct users per server and overall |
| `Watchdog.WriteCounts` | includes/cli_tool/watchdog.php:60-78 | one row per online server with what the indexes say of that server, and the distinct users over all of them |
| `Watchdog.StaysAligned` | includes/cli_tool/watchdog.php:69-76 | the loop counter always names the online server the walk has reached |
| `Watchdog.OnlineIsPrefix` | includes/cli_tool/watchdog.php:62-63 | the online servers met so far are an initial part of all online servers |
| `Watchdog.CountsAreTrue` | includes/cli_tool/watchdog.php:72-73 | under the index invariant the members are the open records of the server and the scores its distinct nonzero users |
| `Watchdog.TotalIsTrue` | includes/cli_tool/watchdog.php:74-78 | the overall users are the distinct nonzero users of open records over all online servers |
| `Watchdog.RowIsTrue` | includes/cli_tool/watchdog.php:72-73 | under the index invariant a written row counts the open records and the distinct users of its server |
| `Watchdog.WriteTrueCounts` | includes/cli_tool/watchdog.php:60-78 | a whole round over a consistent registry writes the true counts and the true total |
| `Watchdog.ConnectionsNeverTooLow` | includes/cli_tool/watchdog.php:64-73 | after any run of the registry no server is credited with fewer sessions than it has open |
| `ServerSelection.EligibleServers` | includes/streaming.php:96-116 | the eligible servers in listing order, and the extension as the assignment in the film test leaves it |
| `ServerSelection.FilteredMeans` | includes/streaming.php:96-116 | the filtered list holds exactly the eligible servers, none twice |
| `ServerSelection.WhatDisqualifies` | includes/streaming.php:98-112 | what keeps a server from being eligible for a live stream or a film, each reason by itself |
| `ServerSelection.WhoIsNotAsked` | includes/streaming.php:93-98 | a server without the stream is not eligible, and an archive has exactly its own |
| `ServerSelection.AcceptServers` | includes/streaming.php:126-133 | accepted are exactly the eligible servers with room |
| `ServerSelection.SortByLoad` | includes/streaming.php:140-143 | the accepted servers in (capacity, id) order |
| `ServerSelection.Walk` | includes/streaming.php:150-189 | the first match wins; without a match exactly the servers that are not closed are ranked, in order |
| `ServerSelection.FirstOfLowestRank` | includes/streaming.php:190-191 | the lexicographic minimum of (rank, capacity, id) |
| `ServerSelection.SelectServer` | includes/streaming.php:122-203 | selection from any shuffled list is the choice defined on the set of its members |
| `ServerSelection.ChannelInfo` | includes/streaming.php:86-209 | the whole request answers the choice among the eligible servers, whatever the shuffle does |
| `ServerSelection.ChoiceIsUnique` | includes/streaming.php:144-197 | the choice is determined by the set of servers alone |
| `ServerSelection.WinnerIsAdmissible` | includes/streaming.php:132-191 | the winner is below total_clients; a strict server without a match wins only as the local rtmp or the forced server |
| `ServerSelection.WinnerIs` | includes/streaming.php:122-197 | who wins, in terms of loads, rules and copies: the local rtmp server, the forced one, the least loaded that names the client, or the one of fewest points and least load |
| `ServerSelection.NobodyWins` | includes/streaming.php:134-202 | exactly when no server wins, and with which answer |
| `StreamMonitor.EnteredIsInitial` | includes/cli_tool/monitor.php:72-91 | the main loop is entered with a preset counter exactly after a forced restart of a running stream |
| `StreamMonitor.NextKeeps` | includes/cli_tool/monitor.php:100-565 | every goto keeps typestate, counter, cache rhythm, failure flag, wait bounds and verdict |
| `StreamMonitor.WhereToGo` | includes/cli_tool/monitor.php:101-111 | with a process the stream is watched, without one it is started, a live one is not started again, and the first run ends with the first success |
| `StreamMonitor.RunKeeps` | includes/cli_tool/monitor.php:72-565 | these hold after every run, whatever the environment answers |
| `StreamMonitor.DatabaseDiscipline` | includes/cli_tool/monitor.php:100-394 | the connection is open wherever the code queries or starts a stream, closed throughout the watch loop, reopened on the one way out |
| `StreamMonitor.CacheRhythm` | includes/cli_tool/monitor.php:358-392 | only a cacheable start can use the probe cache, and it bypasses it exactly at every third attempt, the first one included after a forced restart |
| `StreamMonitor.CounterBelowLimit` | includes/cli_tool/monitor.php:358-370 | whenever an attempt begins the counter is below MONITOR_CALLS, but for a preset one |
| `StreamMonitor.FirstZeroIsLast` | includes/cli_tool/monitor.php:228-243 | at most one start ever returns 0, it ends the process, and the jump after it is dead; a started stream goes on to wait from nothing |
| `StreamMonitor.FailureLimitIsIrrelevant` | includes/cli_tool/monitor.php:231-240 | runs whose environments differ only in the stop_failures setting are equal |
| `StreamMonitor.StatusIsVerdict` | includes/cli_tool/monitor.php:309-328 | at the end of an attempt stream_status is 0 if it passed and 1 if it failed |
| `StreamMonitor.JudgedThenReported` | includes/cli_tool/monitor.php:478-492 | from the verdict a live stream reaches the end with status 0, any other gets status 1 |
| `StreamMonitor.BoundGrows` | includes/cli_tool/monitor.php:270-278 | no step lowers the segment time, and the wait bound lies in 20..30 |
| `StreamMonitor.BoundIs` | includes/cli_tool/monitor.php:273-277 | the bound is three times the segment time, cut to 20..30 |
| `StreamMonitor.SegmentTimeIs` | includes/cli_tool/monitor.php:131-150 | where a probe is heard the segment time becomes the greater of itself and the duration, of which at most ten count; elsewhere it stays |
| `StreamMonitor.BoundGrowsOverRuns` | includes/cli_tool/monitor.php:141-147 | so the wait bound never shrinks over a run |
| `StreamRounds.RoundEnds` | includes/cli_tool/monitor.php:112-207 | one round of the watch loop takes at most 16 turns and leaves it if and only if one of the listed causes holds |
| `StreamRounds.WatchTurn` | includes/cli_tool/monitor.php:130-199 | each turn of a round comes nearer its end with the same causes still to come |
| `StreamRounds.RateIsDivided` | includes/cli_tool/monitor.php:395-429 | which answers lead to the frame rate being probed and divided |
| `StreamAttempts.CreatedStartsTwiceIff` | includes/cli_tool/monitor.php:363-392 | an attempt makes two start calls if and only if it enters the block of created channels, and exactly one otherwise |
| `StreamAttempts.CallsOverRuns` | includes/cli_tool/monitor.php:209-227 | over every run each attempt that has come to label1131 made one call, or two exactly if the first was for a created channel |
| `StreamAttempts.AttemptEnds` | includes/cli_tool/monitor.php:279-492 | an attempt is over, or has ended the process, after at most 2 * bound + 8 turns, hence 68 |
| `PlaylistWait.WaitForPlaylist` | includes/cli_tool/monitor.php:270-306 | the loop terminates, does what its unrolling says and sleeps at most twice the bound |
| `PlaylistWait.WaitBeforeSegment` | includes/cli_tool/monitor.php:279-304 | the same from any turn before a segment is noticed |
| `PlaylistWait.WaitAfterSegment` | includes/cli_tool/monitor.php:287-301 | once the segment is noticed the loop has one more bound to go |
| `PlaylistWait.WaitMeaning` | includes/cli_tool/monitor.php:279-306 | it ends at the first turn with a dead process, a playlist or the deadline, and succeeds exactly on a live process with a playlist |
| `PlaylistWait.MachineWaits` | includes/cli_tool/monitor.php:279-306 | the machine leaves label998 with the loop's last turn, failed exactly if the loop was not ready, and reports the stream as up exactly if a segment was noticed |
| `ArenaModel.AlignedSizeMeaning` | bin/php/include/php/Zend/zend_alloc.h:33-35 | rounding gives the least large enough multiple if and only if the addition does not wrap |
| `ArenaModel.NewSegIsOkIff` | bin/php/include/php/Zend/zend_arena.h:68-77 | a new arena is laid out well if and only if the request and its header do not overflow |
| `ArenaModel.NewArenaIsLarger` | bin/php/include/php/Zend/zend_arena.h:68-77 | a new arena is as large as the one before or exactly as large as the request needs, whichever is more |
| `ArenaModel.AllocKeepsBumpIff` | bin/php/include/php/Zend/zend_arena.h:55-82 | for every size_t request, allocation keeps arenas and live blocks well placed if and only if nothing overflows |
| `ArenaModel.LiveBlocksAreSeparate` | bin/php/include/php/Zend/zend_arena.h:55-82 | live blocks are aligned, inside their arena and pairwise disjoint |
| `ArenaModel.ReleaseRestores` | bin/php/include/php/Zend/zend_arena.h:103-116 | release to a checkpoint restores exactly the earlier chain and pointer, adjacent arenas or not |
| `ArenaModel.ScopeRestores` | bin/php/include/php/Zend/zend_arena.h:98-116 | checkpoint, any nested program, release leaves the state unchanged |
| `ArenaModel.BumpRefines` | bin/php/include/php/Zend/zend_arena.h:35-116 | every program refines the abstract stack of allocations |
| `ArenaModel.ContainsLiveBytes` | bin/php/include/php/Zend/zend_arena.h:118-129 | membership finds every byte of every live block |
| `ArenaModel.CheckpointIsUnique` | bin/php/include/php/Zend/zend_arena.h:202-214 | a checkpoint is the slot address of no later state, adjacent arenas or not |
| `ArenaModel.TrackedReleaseRestores` | bin/php/include/php/Zend/zend_arena.h:207-230 | release gives the earlier chain and frees exactly the later blocks and arenas, newest first, each once |
| `ArenaModel.TrackedAllocPushes` | bin/php/include/php/Zend/zend_arena.h:173-184 | allocation pushes one block, which popping undoes |
| `ArenaModel.TrackedRefines` | bin/php/include/php/Zend/zend_arena.h:148-230 | every program refines the same abstract stack |
| `ArenaModel.BothVariantsAgree` | bin/php/include/php/Zend/zend_arena.h:35-230 | on every program both variants hold the same stack of allocation sizes |
| `ArenaHeap.ArenaHandle.Create` | bin/php/include/php/Zend/zend_arena.h:35-43 | a fresh chain of one empty arena |
| `ArenaHeap.ArenaHandle.Alloc` | bin/php/include/php/Zend/zend_arena.h:55-82 | the in-place code does the model's allocation and returns the block pushed |
| `ArenaHeap.ArenaHandle.Checkpoint` | bin/php/include/php/Zend/zend_arena.h:98-101 | the pointer of the newest arena |
| `ArenaHeap.ArenaHandle.FindHolder` | bin/php/include/php/Zend/zend_arena.h:105-113 | the loop stops at the arena that holds the checkpoint and frees the newer ones, newest first |
| `ArenaHeap.ArenaHandle.Release` | bin/php/include/php/Zend/zend_arena.h:103-116 | the in-place release is the model's and frees exactly the dropped arenas |
| `ArenaHeap.ArenaHandle.Holds` | bin/php/include/php/Zend/zend_arena.h:118-129 | the walk decides membership in the used part of some arena |
| `ArenaHeap.TrackedHandle.Create` | bin/php/include/php/Zend/zend_arena.h:148-156 | a fresh chain of one arena without blocks |
| `ArenaHeap.TrackedHandle.Alloc` | bin/php/include/php/Zend/zend_arena.h:173-184 | the in-place code does the model's allocation |
| `ArenaHeap.TrackedHandle.Checkpoint` | bin/php/include/php/Zend/zend_arena.h:202-205 | the address of the next free slot |
| `ArenaHeap.TrackedHandle.Release` | bin/php/include/php/Zend/zend_arena.h:207-230 | the in-place loop ends in the model's chain and frees its blocks and arenas in its order |
| `ArenaHeap.Execute` | bin/php/include/php/Zend/zend_arena.h:35-116 | any nested program, run on the linked objects of the default variant, ends in the model's state |
| `ArenaHeap.ExecuteTracked` | bin/php/include/php/Zend/zend_arena.h:148-230 | the same for the tracked variant |
| `ArenaHeap.ExecuteBoth` | bin/php/include/php/Zend/zend_arena.h:35-230 | fresh objects of both variants, taken through one program, hold the abstract stack of allocations |
| `VodSender.ClampedMeaning` | wwwdir/streaming/clients_movie.php:159-197 | a range is refused exactly if empty or beyond the file; an accepted one satisfies 0 <= start <= end < size |
| `VodSender.CeilDivMeans` | wwwdir/streaming/clients_movie.php:219-220 | the read at which the limit applies is the least n with limitAt <= n * buffer |
| `VodSender.BuffersPerSecond` | wwwdir/streaming/clients_movie.php:234 | the least number of buffers that covers a second at the rate |
| `VodSender.LimitAt` | wwwdir/streaming/clients_movie.php:207-211 | the whole part of the percentage, or the length for restreamers and without a percentage |
| `VodSender.FirstSleepIs` | wwwdir/streaming/clients_movie.php:219-237 | the first limited read, and that no sleep is due before it or before a second's worth |
| `VodSender.AfterRead` | wwwdir/streaming/clients_movie.php:216-237 | one turn of the counters keeps their meaning in terms of reads and sleeps |
| `VodSender.ReadNext` | wwwdir/streaming/clients_movie.php:215-216 | a read hands out the bytes up to the new file position and makes progress |
| `VodSender.SendBody` | wwwdir/streaming/clients_movie.php:202-257 | exactly the bytes from start to the final position are sent, with as many sleeps as the reads call for |
| `VodSender.SendFilm` | wwwdir/streaming/clients_movie.php:151-258 | a whole request: without a range the whole file, several ranges refused, otherwise the exact slice with less than one buffer too much, and n < m + c * k |
| `VodSender.ReadsNeeded` | wwwdir/streaming/clients_movie.php:215-216 | the range is passed after exactly as many reads as it has buffers |
| `VodSender.CompletedTransfer` | wwwdir/streaming/clients_movie.php:215-225 | a completed transfer begins with exactly the requested slice, overshoots by less than one buffer, and its exact size is given |
| `VodSender.ThrottleBound` | wwwdir/streaming/clients_movie.php:234-237 | after n reads with k sleeps n < m + c * k, and k is the least such number |
| `VodSender.SleepsAreDetermined` | wwwdir/streaming/clients_movie.php:234-237 | the number of sleeps follows from the number of reads |
| `FloodWindows.FloodFile.CheckFlood` | includes/functions.php:348-400 | one request changes the stored row as the step function says, and blocking deletes it |
| `FloodWindows.FloodBlocksEvery` | includes/functions.php:357-386 | in a run of close requests exactly each (limit + 1)-th is blocked |
| `FloodWindows.TruncateList` | includes/functions.php:530-538 | the loop keeps exactly the attempts inside the window |
| `FloodWindows.RecentKeeps` | includes/functions.php:530-538 | an attempt is kept exactly if it is younger than the window, in order and with repetitions |
| `FloodWindows.RecentOfRecent` | includes/functions.php:530-538 | an earlier pruning never removes what a later one would keep |
| `FloodWindows.AuthFile.CheckAuthFlood` | includes/functions.php:409-444 | one login attempt changes the stored row as the step function says |
| `FloodWindows.AuthFileIsHistory` | includes/functions.php:418-431 | the stored list is the in-window part of all attempts ever made, and block_until goes by the full history |
| `FloodWindows.BruteFile.CheckBruteforce` | includes/functions.php:460-516 | one attempt changes the stored map as the lazy step says; a repeat, by whatever comparison of terms, leaves it alone |
| `FloodWindows.LazyPruningIsEager` | includes/functions.php:473-499 | not rewriting the map on repeats blocks exactly the same requests as eager pruning, whatever the comparison of terms |
| `FloodWindows.BruteBlocksEvery` | includes/functions.php:473-499 | of a run of different terms within one window exactly each m-th is blocked, m being the limit but at least 2 |
| `FloodWindows.RepeatIsNeverBlocked` | includes/functions.php:481 | a term the window already holds is never blocked and changes nothing |
| `FloodWindows.ExpiredTermsDoNotCount` | includes/functions.php:480-483 | terms as old as the window are forgotten |
| `BouquetIndex.BuildIndex` | crons/cache.php:85-132 | the nested loops list a bouquet under a stream if and only if it carries the stream, by itself or through a series |
| `BouquetIndex.UserIds` | includes/streaming.php:355-379 | the user's channel and series ids are the union over the user's known bouquets, without repetition |
| `BouquetIndex.EntitlementAgrees` | wwwdir/streaming/auth.php:359-361 | the user's bouquets meet the index entry if and only if the stream is among the user's channels or episodes of the user's series |
| `BouquetIndex.Unique` | crons/cache.php:196 | the list of first occurrences |
| `BouquetIndex.FirstsKeepOrder` | crons/cache.php:196 | dropping repetitions keeps every id once, in the sequence of first places |
| `BouquetIndex.WithLeftovers` | crons/cache.php:150-177 | appended are exactly the streams of the kinds that no bouquet lists, in their order |
| `BouquetIndex.LeftoversMean` | crons/cache.php:150-155 | the appended ids are those of the kinds that are not listed |
| `BouquetIndex.BuildOrder` | crons/cache.php:149-197 | kind by kind the listed ids, then the leftovers, without repetition |
| `BouquetIndex.OrderMembers` | crons/cache.php:149-197 | the order knows every stream of the five kinds and every listed id, and nothing else |
| `BouquetIndex.PartsInSequence` | crons/cache.php:150-195 | channels come before radios, radios before films, films before episodes, leftovers by their own kind |
| `BouquetIndex.ListedBeforeLeftover` | crons/cache.php:149-177 | within each of the four parts what a bouquet lists comes before what none lists |
| `BouquetIndex.Flip` | includes/lib.php:439 | every id with its last position |
| `BouquetIndex.SortChannels` | includes/lib.php:436-451 | the requested channels in the global order; the swapped array, with last positions, exactly if the order knows none; the list itself if nothing is sorted |
| `BouquetIndex.PickedIsEmptyIff` | includes/lib.php:441-448 | nothing matches if and only if the order knows none of the channels |
| `BouquetIndex.PickedIsReordering` | includes/lib.php:440-444 | the result holds exactly the known requested channels, once each, in the order's sequence |
| `BouquetIndex.NothingIsLostIff` | includes/lib.php:445-450 | nothing is lost if and only if the order knows every requested channel |
| `BouquetIndex.ExistingComeBack` | includes/lib.php:436-451 | existing channels, asked for once each, come back as a permutation in the order's sequence |
| `BouquetIndex.ChannelsFor` | includes/lib.php:436-451 | building the order and sorting by it: what comes back for any request, by which channels exist |
| `SourceFailover.Rotate` | includes/stream.php:262-268 | the unset-and-push loop is the rotation that puts the current source last |
| `SourceFailover.RotatedAt` | includes/stream.php:262-268 | position d of the rotation is d + 1 places after the current source, going round |
| `SourceFailover.OrderSources` | includes/stream.php:254-272 | a forced source stands alone; otherwise the list is rotated after the first occurrence of the current source, or kept |
| `SourceFailover.Probe` | includes/stream.php:292-357 | the loop stops at the first source that answers |
| `SourceFailover.ProbedAround` | includes/stream.php:258-357 | probing the rotation tries the sources round the circle, the current one last |
| `SourceFailover.FailOver` | includes/stream.php:254-367 | a forced source is the only candidate; otherwise the first source that answers, from the top or in cyclic order after the current one, or failure if none does |
| `SourceFailover.Seek` | includes/stream.php:214-250 | the scan computes the walk over the items that are not blank |
| `SourceFailover.NonBlankOfOne` | includes/stream.php:223-225 | a line without a path, or with a lone zero, is skipped, any other stays |
| `SourceFailover.NonBlankOfTwo` | includes/stream.php:223-225 | lists of lines are walked one after the other |
| `SourceFailover.WalkBeforeStart` | includes/stream.php:221-243 | nothing is kept while the total has not passed the start |
| `SourceFailover.SeekFindsSuffix` | includes/stream.php:221-243 | kept is exactly the suffix from the item playing at startPos, and the offset is the playing time before it |
| `SourceFailover.WalkIsValidIff` | includes/stream.php:227-239 | the result is usable if and only if every item has a known nonzero duration |
| `SourceFailover.OneItemPlays` | includes/stream.php:229-236 | at most one item plays at a time, so the suffix is determined |
| `BlockList.CountValues` | crons/root_signals.php:38 | distinct rules with their multiplicities |
| `BlockList.Surplus` | crons/root_signals.php:38-45 | every rule is listed for deletion once less than it occurs |
| `BlockList.Missing` | crons/root_signals.php:46-50 | exactly the listed addresses without a rule are to be added, once each |
| `BlockList.Unlisted` | crons/root_signals.php:51-55 | every occurrence of a rule that is not listed is to be deleted |
| `BlockList.Firewall.Unblock` | crons/root_signals.php:490-496 | each deletion that is an address removes one rule of that address, if there is one |
| `BlockList.Firewall.Block` | crons/root_signals.php:482-488 | each addition that is an address inserts one rule, in the firewall's own spelling |
| `BlockList.Firewall.Reconcile` | crons/root_signals.php:32-69 | from any rules in the firewall's spelling, every address ends with one rule for each listed spelling of it, and none if it is not listed; nothing else changes |
| `BlockList.OneRuleEach` | crons/root_signals.php:32-69 | with every listed address spelled as printed, each has exactly one rule and no other address has any |
| `BlockList.OtherSpellingHasNoRule` | crons/root_signals.php:46-55 | an address listed in another spelling never has a rule of that spelling |
| `BlockList.CapitalsNeverSettle` | crons/root_signals.php:46-55 | a concrete list whose second run deletes and adds again |
| `BlockList.SecondRunIsEmptyIff` | crons/root_signals.php:32-69 | a second run finds nothing to do if and only if every listed address is spelled as printed and no string that is no address stands in the way |
| `SignalQueue.StepKeeps` | includes/cli_tool/signals.php:9-80 | every step keeps: inserted signals are in the table or handled, and only by their target server |
| `SignalQueue.RunKeeps` | includes/cli_tool/signals.php:9-80 | so does every interleaving of inserts, reads, acts, deletes and crashes |
| `SignalQueue.EffectOrderMeans` | includes/cli_tool/signals.php:29-73 | a batch takes effect once on each row it read: deletions first, then all stream updates, then all line updates |
| `SignalQueue.UpdatesComeLast` | includes/cli_tool/signals.php:29-73 | no line update takes effect before a stream update, and no update before a deletion |
| `SignalQueue.StageKeepsOrder` | includes/cli_tool/signals.php:32-70 | within each of these the order of the ids is kept |
| `SignalQueue.SelectionSize` | includes/cli_tool/signals.php:9-27 | a read answers with at most 100 or 1000 signals of its server and kind, and with all if there are fewer |
| `SignalQueue.ReadIsPossible` | includes/cli_tool/signals.php:9-27 | an idle receiver can always read |
| `SignalQueue.NoSignalIsLost` | includes/cli_tool/signals.php:9-80 | every signal ever inserted is still there or has been acted on, by its target server only |
| `SignalQueue.RoundCounts` | includes/cli_tool/signals.php:9-25 | the end of a round handles the row or takes a whole limit's worth of older rows away |
| `SignalQueue.HandledWithinRounds` | includes/cli_tool/signals.php:9-80 | a row with fewer than k limits' worth of older rows is handled once its receiver has completed k + 1 batches, whatever else happens |
| `SignalQueue.OldestIsRead` | includes/cli_tool/signals.php:9-27 | a read always includes the oldest matching signal |
| `SignalQueue.RequestIsSwallowedIff` | includes/streaming.php:1338-1344 | some continuation clears the table of equal rows without acting on any if and only if equal rows are queued and the receiver is past all of them; otherwise every continuation acts on one first |
| `SignalQueue.CrashRevives` | includes/cli_tool/signals.php:6 | a receiver that dies before its deletion cannot swallow the request any more |
| `SignalQueue.PendingUntilActedOn` | includes/cli_tool/signals.php:27-80 | a pending row stays pending until its own receiver acts on it |
| `SignalQueue.PendingOverRuns` | includes/cli_tool/signals.php:27-80 | over any run a pending row stays in the table as long as nobody acts on a row that equals it |
| `SignalQueue.RequestCanBeLost` | includes/streaming.php:1338-1344 | a concrete interleaving in which an update request has no effect |
| `SignalQueue.Merge` | includes/cli_tool/signals.php:44-57 | merging adds what is missing and repeats nothing |
| `SignalQueue.CollectWork` | includes/cli_tool/signals.php:29-70 | one batch covers exactly what its rows name, refreshes nothing twice, and deletes exactly the rows it read |
| `Tokens.SextetsAreRead` | includes/functions.php:1002-1015 | regrouping bytes into sextets and back is the identity |
| `Tokens.UrlEncodeIs` | includes/functions.php:1002-1004 | the encoder writes the translated digits without padding |
| `Tokens.UrlRoundTrip` | includes/functions.php:1002-1015 | unpadded base64url decodes to every byte string it encodes and never contains '/', '+' or '=' |
| `Tokens.AlphabetIs` | includes/functions.php:1002-1004 | the digits are those of RFC 4648 |
| `Tokens.PaddingMakesFours` | includes/functions.php:1002-1004 | padding fills up the last group of four digits |
| `Tokens.PaddingIs` | includes/functions.php:1002-1004 | lengths and padding of one, two and three bytes, and no padding in a URL |
| `Tokens.ExplodeJoined` | wwwdir/streaming/segment.php:16 | fields without slashes survive joining and splitting |
| `Tokens.PrintedIsParsed` | includes/functions.php:980-993 | with an invertible cipher a token parses to the split of its joined fields |
| `Tokens.SegmentRoundTripIff` | wwwdir/streaming/segment.php:16-48 | a segment token comes back, defaults filled in, if and only if no field contains a slash and the user is not TS |
| `Tokens.OtherServersRefuse` | wwwdir/streaming/segment.php:18-25 | every other server refuses the token |
| `Tokens.RefusedIff` | wwwdir/streaming/segment.php:18-25 | exactly which tokens are refused |
| `Tokens.DefaultsAre` | wwwdir/streaming/segment.php:38-46 | every field is read from its place, and missing, empty or zero codec and on-demand flag are filled in |
| `Tokens.AtLeastAsManyPieces` | wwwdir/streaming/auth.php:14 | splitting a joined token never gives fewer pieces than it had fields |
| `Tokens.PlayRoundTripIff` | wwwdir/streaming/auth.php:13-52 | for every token of the two playlist forms and any extension beside it, the request is read as printed if and only if the token is not all hex digits, no field contains a slash, the kind is plain, and an extension left out is the default |
| `Tokens.DevicePrefixIsRead` | wwwdir/streaming/auth.php:16-21 | a device prefix is taken off the kind and marks the request, every other field is read from its place |
| `Tokens.PlainKindIsRead` | wwwdir/streaming/auth.php:15-47 | without a prefix the request is not marked |
| `Tokens.HexDigitsAre` | wwwdir/streaming/auth.php:13 | which characters are hex digits, and that an empty token is not made of them |
| `Tokens.HexTokenIsLost` | wwwdir/streaming/auth.php:13 | whatever a token says, some invertible cipher prints it as AAAA, and then it is read as an access token |

## Left out

- ffmpeg, ffprobe, curl, kill and file effects: what they answer is an arbitrary boolean or function of the model.
- SQL, Redis and serialisation engines: uuids are assumed unique and every MULTI block atomic; a record is read and written back in one step.
- AES, md5, GeoIP and provider lookups: the cipher is any inverse pair, a matched country or provider is a flag.
- The arithmetic of getCapacity (includes/streaming.php:210-251): a server's capacity is any real number; only its order matters here.
- ConnectionLimit.CloseConnections: the Redis read that feeds it passes the user id where a server id is expected and counts a pair of lists, so the open connections and their number are inputs.
- ConnectionLimit.CloseConnections: every close is taken to succeed, as it does for a record that is an array; the kill, the signal and the queue removal it triggers are not modelled.
- SessionSweep: only the SQL half; the guard at crons/users.php:140 makes the Redis half of that loop unreachable. Its bulk deletion is modelled in ConnectionRegistry.
- StreamMonitor: modelled on values as a transition system, because the main loop never ends; its clock tests and probe results are part of the environment, and the FPS comparison is a flag.
- StreamMonitor.DatabaseDiscipline: a failing reconnection ends the process, as the connection handler does.
- ArenaModel.BumpRefines: programs with a request that overflows are excluded, because the code then breaks its own layout; the interpreter's malloc is any that answers with aligned memory apart from the chain.
- Arena destroy and calloc: easy members. The tracked variant's membership test always answers yes.
- VodSender: the speed file, and suffix ranges, whose test compares with the bare string '-'; a rate is a real number.
- FloodWindows: allow-lists, exclusion lists, the already-blocked test and the block marker files.
- FloodWindows.AuthFileIsHistory: stated for limits that are not negative; zero switches the guard off.
- BouquetIndex: manual channel numbering, category maps and the conversion of ids to integers.
- SourceFailover: the probe cache and the on-demand branch that does not probe.
- BlockList: the marker files, which are also unlinked while de-duplicating; addresses are recognised by an arbitrary test, and the firewall prints them in any fixed way that it prints again unchanged.
- SignalQueue: the ageing-out of old signals and the flush action; a batched update takes effect row by row, so a crash between two rows of one shell call is more than the code allows.
- Tokens: conversion of the stream id to an integer, and the fields of time-shift, archive, device and expiry layouts, which are only recognised.
- delay.php, archive.php, addToQueue, closeLastCon and the seek part of timeshift.php: their loops or arguments are inverted or make no progress.
- User-agent regexes, playlist and page formatting, server statistics: output only.
