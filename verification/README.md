# memU coordination and memory core: a verified model

This project models the stateful core of memU (the shared-memory service and its agent coordination layer)
and proves what that core keeps over every run. It is written in Dafny 4.11; `dafny verify dfyconfig.toml`
checks all of it.

How the model is built:

* A Python object whose methods update its fields is a class whose methods have the code's branches in the
  code's order. Each method is proved equal to a pure step function on a value (`Table`, `Store`, `Tables`, ...),
  and the theorems are about runs of that step function, under any interleaving of clients.
* What a step function computes is stated a second time, without it: modules with `History`, `Answers` or `Order` in
  their name read the answers and the state of a run off its calls, their times and the earlier answers alone.
* What one mutex, one database statement or one key-value request makes atomic is one step. Clock readings are
  arguments of a step.
* Where the code does less than its documentation says, the model follows the code: a lemma shows what goes wrong,
  and where the promise holds of some inputs or runs, one says of which.

The modules, by source file:

| module | source | subject |
|---|---|---|
| `LeaseProtocol`, `LeaseHistory`, `SqliteLocks`, `MarkdownLocks`, `NeighborhoodLocks`, `NeighborhoodOrder`, `NeighborhoodSessions` | `memu/neighborhood_lock.py` | leases with fencing tokens, two registries, all-or-nothing acquisition of a neighbourhood, renewal until it is left |
| `LaneLocks`, `LaneHistory`, `LaneRequests` | `memu/lane_lock.py` | lane locks with expiry and orphan sweeps, fenced commit; the acquire request by request |
| `CoreMemory`, `CoreMemoryRuns`, `CoreMemoryHistory`, `Truncation` | `memu/core_memory.py` | compare-and-swap working memory, token-safe truncation |
| `EventDag`, `BatchProjection`, `BridgeLedgers`, `TaskHistory`, `LedgerRefinement` | `memu/projection.py`, `memu/bridge_ledger.py` | two implementations of the task DAG fold |
| `ForensicPaging`, `ReflectionReview`, `ReflectionAnswers`, `ReflectionStatements`, `MemoryDedupe`, `EvidenceWrites` | `memu/api.py`, `memu/schema_contract.py` | keyset pagination, review queue, duplicate merging, idempotent writes |
| `RankFusion`, `FusionOrder`, `Clustering`, `AgentIndex`, `AgentHistory`, `EventSummaries`, `SummaryHistory` | `memu/concept_search.py`, `memu/memory_agent.py`, `memu/cognitive_workers.py`, `memu/task_orchestrator.py` | search and aggregation |
| `Collections`, `Strings` | none | options, filters, sets, distinctness, stable sorting; `str.strip` |

## Where code and documentation part

* `MarkdownLockRegistry` does not stand in for the SQLite registry on all slugs. `_safe_name` maps `/` to `__`, so
  `a/b` and `a__b` share a file; and the temporary file of slug `x` is the fence file of slug `x.tmp`, so that
  granting `x` wipes out the counter of `x.tmp` and hands a token out twice. The slugs "", "." and ".." name the fence
  directory or its parent, and acquiring them raises (`DirectoryNameRaises`). `AgreesIffSeparate` is the exact
  condition.
* The lock's constructor wants the renewal interval below the ttl. That is not enough to keep the lock: what is, is that
  each round of renewals ends within one ttl of the beginning of the one before (`HeldWithoutGap`).
* `NeighborhoodLock` says it acquires in sorted order; the slug itself comes first and only the neighbours are
  sorted. The order is sorted if and only if the slug is above none of its neighbours (`TargetsSortedIff`), so that
  two neighbours that start at once can refuse each other (`NeighborsCanRefuseEachOther`). A neighbour listed twice
  makes an attempt refuse itself (`UncontendedSucceedsIff`). All-or-nothing does not depend on the order.
* The acquire of a lane reads the fence, creates the lane key and writes the fence in three requests. Tokens are
  unique if and only if no granted attempt reads the fence between another's read and write
  (`TokensUniqueIffNoOverlap`); `RaceRepeatsToken` is a run in which two holders of one token both pass the check.
* `update_block` documents `expected_revision` as protection; on a conflict it re-reads the revision and writes its
  own content all the same (`StaleUpdateOverwrites`).
* The block limits add up to 10,500, below `TOTAL_TOKEN_BUDGET`, which nothing checks. `append_block` checks no
  permission and can write any block (`AppendWritesAnyBlock`). `bootstrap_agent` checks no limit: a block stays within
  its limit if and only if no bootstrap creates it larger (`LimitsHoldIff`).
* The ledger's child edges are not always a subset of the batch projection's: `EdgesWithinBatchIff` says which
  redrafts strand one, `RedraftStrands` shows one. Replay is not insensitive to the order of different tasks' events
  either (`SwapKeepsEdgeIff`, `SwapCanMoveEdge`).
* `max_events = 0` retains the whole log, since `s[-0:]` is all of `s`.
* Merging duplicates is not a transaction. A refused statement leaves its group's accesses counted twice
  (`FailureCountsTwice`), and rows without a content hash are merged with each other, whatever they say. Children
  of a dropped row lose their parent instead of being relinked.
* The reflection endpoints open no transaction. Two calls that both read a proposal before either marks it write
  two memories for it (`RaceWritesTwice`), and a denial can come to stand on an accepted one. `SettledIff` is the exact
  condition, `SettledIffNoClash` a simpler one where nobody denies.
* A superseded proposal keeps pointing at its invalidated memory, and names itself as its successor.
* A failed publish leaves the summary stored and the buffer full: its events are superseded again later
  (`ConservedIffPublished`).
* An agent vector of another width is refused after the id was appended. The next newcomer's row is then filed
  under the wrong agent (`FailedNewcomerShiftsRows`).
* In reciprocal rank fusion an id that stands ahead of another in every list need not come first when the lists
  repeat the other one (`AheadOutscoresIff`). It does when it stays ahead in number (`DominantComesFirst`), in
  particular when the other stands at most once in each list, whatever else is repeated (`AheadComesFirst`).
* Evidence without an idempotency key is not always kept: migration 017 makes `metadata->>'idempotency_key'` unique
  over all tenants (`KeylessEvidenceIsKeptIff`).

## Model

| member | source | states |
|---|---|---|
| SqliteLocks.SqliteLockRegistry.TryAcquire | memu/neighborhood_lock.py:125-162 | the method is the protocol's acquire step: refused under a live lease, else fence raised by one and the lease replaced |
| SqliteLocks.SqliteLockRegistry.Renew | memu/neighborhood_lock.py:164-189 | the renew step: holder and token must match, expiry is not looked at |
| SqliteLocks.SqliteLockRegistry.Release | memu/neighborhood_lock.py:191-208 | the release step: only the matching lease goes, the fence stays |
| SqliteLocks.SqliteLockRegistry.BumpFence | memu/neighborhood_lock.py:230-243 | the next token is one above the stored one, 1 at first, and is stored |
| SqliteLocks.SqliteLockRegistry.Peek | memu/neighborhood_lock.py:210-224 | the stored lease of the slug, if any, expired or not |
| LeaseProtocol.RunsStayConsistent | memu/neighborhood_lock.py:125-243 | over every run a held lease carries exactly its slug's fence counter |
| LeaseProtocol.FenceCountsGrants | memu/neighborhood_lock.py:230-243 | the counter is the number of grants: nothing else ever moves it |
| LeaseProtocol.TokensStrictlyIncrease | memu/neighborhood_lock.py:145-162 | later grants of a slug have larger tokens, by the number of grants between |
| LeaseProtocol.StaleTokenIsPowerless | memu/neighborhood_lock.py:164-208 | after a newer grant, every renew or release under an older token is refused and changes nothing |
| LeaseProtocol.UntouchedLeaseStands | memu/neighborhood_lock.py:125-208 | a lease its owner leaves alone stands unchanged until it expires, whatever others do |
| LeaseProtocol.LeasesExclude | memu/neighborhood_lock.py:125-208 | mutual exclusion: a slug is granted again before a lease's expiry only if that client itself renewed or released in between |
| LeaseProtocol.OwnershipIsLatestGrant | memu/neighborhood_lock.py:164-208 | the table's ownership is exactly "granted, and since then neither granted again nor released" |
| LeaseProtocol.RenewIffLatestGrantee | memu/neighborhood_lock.py:164-189 | a renewal succeeds if and only if its caller is the latest grantee and has not released |
| LeaseHistory.TableIsRecorded | memu/neighborhood_lock.py:125-224 | over every run a row stands exactly where the slug's last grant or renewal was not followed by a release; holder, token and acquisition time are that grant's, and the expiry is the time of the last grant or renewal plus the ttl it asked for |
| LeaseHistory.AcquireIffNotHeld | memu/neighborhood_lock.py:125-162 | an acquire is refused if and only if an earlier call granted or renewed the slug for longer than until now and none has granted, renewed or released it since; otherwise it gets the next token, from now on for its own ttl |
| LeaseHistory.OwnerCallsTell | memu/neighborhood_lock.py:164-208 | a renewal or release goes through if and only if its caller is the latest grantee and has not released; the renewed record runs from now on for its own ttl |
| MarkdownLocks.MarkdownLockRegistry.TryAcquire | memu/neighborhood_lock.py:277-318 | the file registry's acquire is its step on the lock and fence files |
| MarkdownLocks.MarkdownLockRegistry.Renew | memu/neighborhood_lock.py:320-342 | likewise renew, with the extra fence check |
| MarkdownLocks.MarkdownLockRegistry.Release | memu/neighborhood_lock.py:344-363 | likewise release, with the extra fence check |
| MarkdownLocks.MarkdownLockRegistry.BumpFence | memu/neighborhood_lock.py:414-417 | the next token, written through the temporary file; refused when the name is a directory's, with the temporary file left behind |
| MarkdownLocks.StepRefines | memu/neighborhood_lock.py:277-431 | on separate slugs one file step answers like the table step and keeps the files representing the table |
| MarkdownLocks.RunRefines | memu/neighborhood_lock.py:277-431 | over every run the files represent the SQLite table |
| MarkdownLocks.FenceChecksAreRedundant | memu/neighborhood_lock.py:419-425 | a lock file whose token matches is always backed by a matching counter |
| MarkdownLocks.DirectoryNameRaises | memu/neighborhood_lock.py:391-392 | a slug whose fence file is a directory: acquiring it raises where the table grants, and leaves at most the temporary file behind |
| MarkdownLocks.SharedNameDisagrees | memu/neighborhood_lock.py:383-392 | two slugs with one file name: the second acquire is refused where the table grants it |
| MarkdownLocks.TemporaryFileResetsFence | memu/neighborhood_lock.py:427-431 | a slug whose fence file is another's temporary file: the counter is lost and a token repeated |
| MarkdownLocks.AgreesIffSeparate | memu/neighborhood_lock.py:277-431 | the registries agree on every run over a set of slugs if and only if their file names are separate: no directory among them, no two alike, none another's temporary file |
| MarkdownLocks.PlainSlugsAreSeparate | memu/neighborhood_lock.py:383-386 | slugs without `_` that do not end in `.tmp` are separate, the three directory names excepted: `_safe_name` is injective on them |
| MarkdownLocks.SafeNameFlattens | memu/neighborhood_lock.py:383-386 | a file name is the slug with each `/` replaced by `__`, and nothing else touched |
| MarkdownLocks.GarbledLeaseBlocksForever | memu/neighborhood_lock.py:394-404 | a lock file that cannot be read blocks its slug forever: no later acquire is granted, whatever is called |
| NeighborhoodLocks.AttemptGrantsAll | memu/neighborhood_lock.py:489-515 | on success every target was granted under a token newer than any before, and is still held unless its time ran out |
| NeighborhoodLocks.AttemptLeavesNoTrace | memu/neighborhood_lock.py:489-515 | a refused attempt leaves no lease of ours that we did not have before, fences only rise, another holder's untouched live lease stands |
| NeighborhoodLocks.AcquiredRecords | memu/neighborhood_lock.py:493-499 | the acquire loop collects one record per target, in order, up to the first refusal |
| NeighborhoodLocks.AcquireKeeps | memu/neighborhood_lock.py:493-499 | a lease granted early in the loop is still good when the loop goes on, although others act in between |
| NeighborhoodLocks.RenewKeeps | memu/neighborhood_lock.py:536-550 | every lease renewed in a round is kept to its new expiry, even when a later one turns out to be lost |
| NeighborhoodLocks.RenewFence | memu/neighborhood_lock.py:536-550 | a renewal round of ours moves no fence down, and every lease keeps carrying its fence |
| NeighborhoodLocks.RenewSparesOthers | memu/neighborhood_lock.py:536-550 | a renewal round leaves the lease of another holder, live or not, as it is, and gives us none we did not have |
| NeighborhoodLocks.ReleaseRetires | memu/neighborhood_lock.py:517-534 | after the release loop none of the records owns a lease any more |
| NeighborhoodLocks.NeighborhoodLock.Enter | memu/neighborhood_lock.py:489-515 | entering is exactly the attempt: acquire in turn, roll back on refusal, records set only on success |
| NeighborhoodLocks.NeighborhoodLock.RenewRound | memu/neighborhood_lock.py:536-550 | one round renews the records in turn; on a loss the old records stay |
| NeighborhoodLocks.NeighborhoodLock.Exit | memu/neighborhood_lock.py:517-534 | leaving releases every record and forgets them |
| NeighborhoodOrder.LeqIff | memu/neighborhood_lock.py:490-492 | strings are ordered by the first character in which they differ, a beginning before the whole |
| NeighborhoodOrder.NeighborsComeSorted | memu/neighborhood_lock.py:490-492 | behind the slug come exactly its neighbours, sorted, as often as they are listed |
| NeighborhoodOrder.TargetsSortedIff | memu/neighborhood_lock.py:490-492 | the targets are acquired in sorted order if and only if the slug is above none of its neighbours |
| NeighborhoodOrder.UncontendedSucceedsIff | memu/neighborhood_lock.py:489-515 | an attempt nobody contends, on free slugs and within one ttl, succeeds if and only if no neighbour is listed twice |
| NeighborhoodOrder.NeighborsCanRefuseEachOther | memu/neighborhood_lock.py:489-515 | two neighbours that start at once can both be refused: one run of six calls, of which each side's schedule tells its part, and both attempts end in states of that run |
| NeighborhoodSessions.RoundsSucceed | memu/neighborhood_lock.py:536-550 | while every round ends within one ttl of the beginning of the one before, all rounds succeed and keep the tokens of the entry, whatever others do |
| NeighborhoodSessions.HeldWithoutGap | memu/neighborhood_lock.py:489-550 | from a successful entry on, at every moment between any two calls of such rounds, every slug is leased to us under the token of the entry until our next call |
| NeighborhoodSessions.HeldUntilExit | memu/neighborhood_lock.py:517-550 | and after the last round until the first call of the exit, if that comes within one ttl of the beginning of that round |
| LaneLocks.LaneLockedExecution.AcquireLane | memu/lane_lock.py:160-244 | the acquire step: duplicate claim, contended lane, reclaim of a stale or unreadable entry, fence raised by one |
| LaneLocks.LaneLockedExecution.RenewLaneLock | memu/lane_lock.py:315-339 | the renewal step: refused unless the entry carries our token |
| LaneLocks.LaneLockedExecution.ReleaseAllLanes | memu/lane_lock.py:263-287 | the release of all locks, entry by entry, deleting only those that match in gateway, task and token |
| LaneLocks.LaneLockedExecution.CommitCheck | memu/lane_lock.py:384-393 | the check passes exactly when every lock's token is its lane's fence, and reports the first problem |
| LaneLocks.LaneBuckets.DetectOrphans | memu/lane_lock.py:547-585 | one pass deletes exactly the entries older than the time to live |
| LaneLocks.EntryCarriesFence | memu/lane_lock.py:160-244 | a lane entry always carries its lane's fence, whatever expired, was swept or reclaimed |
| LaneLocks.FenceStep | memu/lane_lock.py:201-226 | only a grant moves a lane's fence, and by one |
| LaneLocks.LocksComeFromGrants | memu/lane_lock.py:144-158 | every lock an execution holds was granted to that execution |
| LaneLocks.CurrentIffLatestGrant | memu/lane_lock.py:384-393 | a lock passes if and only if its grant is the latest of its lane |
| LaneLocks.CommitIffLatestGrantee | memu/lane_lock.py:384-393 | an execution passes the commit check if and only if it is the latest grantee of every lane it holds |
| LaneLocks.NoSplitBrain | memu/lane_lock.py:384-393 | two executions that share a lane never both pass |
| LaneLocks.ReleaseSparesOthers | memu/lane_lock.py:263-287 | a release deletes an entry only if the releasing execution is that lane's latest grantee |
| LaneHistory.LanesAreRecorded | memu/lane_lock.py:160-339 | over every run a lane has an entry exactly while its last grant or renewal stands: it neither expired in the bucket nor was released by its execution nor found more than ten seconds old by an orphan pass; the entry names that execution and that time |
| LaneHistory.AcquireIff | memu/lane_lock.py:160-233 | an acquire while such an extension stands is a duplicate claim for the same gateway and task, contested for ten seconds otherwise, and granted afterwards; with none standing it is granted; the token is one above the number of grants so far |
| LaneHistory.RenewIff | memu/lane_lock.py:315-339 | a renewal goes through if and only if an extension of the lane stands and the lock has the token of the lane's latest grant |
| LaneHistory.OrphanedIff | memu/lane_lock.py:547-585 | an orphan pass removes a lane if and only if it was last granted or renewed more than ten seconds before |
| LaneHistory.LiveLaneStands | memu/lane_lock.py:160-585 | a lane granted or renewed is for ten seconds neither granted to another gateway or task nor removed by an orphan pass, unless it expires in the bucket or is released |
| LaneHistory.UnreadableEntry | memu/lane_lock.py:196-199 | an entry whose time does not parse is reclaimed by whoever else asks, and left alone by orphan passes |
| LaneRequests.AloneIsAcquireStep | memu/lane_lock.py:160-244 | undisturbed, the requests of an acquire amount to the acquire step |
| LaneRequests.RunOrderly | memu/lane_lock.py:201-226 | whatever comes between the requests, each attempt reads the fence once, then puts once at most, what it drew: one more than the last put |
| LaneRequests.TokensUniqueIffNoOverlap | memu/lane_lock.py:201-226 | request by request, no two attempts hold a lane under one token if and only if no granted attempt read the fence between another's read and put |
| LaneRequests.RaceRepeatsToken | memu/lane_lock.py:201-226 | a run with an expiry between two creates: two holders of one token, and both pass the commit check |
| CoreMemory.ReplacesFirstOccurrence | memu/core_memory.py:487-488 | the first occurrence is replaced and nothing around it moves |
| CoreMemory.ReplacesIffOccurs | memu/core_memory.py:481-485 | a replacement is refused exactly when the text does not occur |
| CoreMemory.CoreMemoryManager.UpdateBlock | memu/core_memory.py:278-383 | checks, then the retry loop, equal to running the client machine with the others' writes landing before each request |
| CoreMemory.CoreMemoryManager.AppendBlock | memu/core_memory.py:385-438 | likewise for append, recomputed from a fresh read on each try |
| CoreMemory.CoreMemoryManager.ReplaceInBlock | memu/core_memory.py:440-518 | likewise for replace |
| CoreMemory.CoreMemoryManager.BootstrapAgent | memu/core_memory.py:525-563 | block by block, get and then create what is missing, with the others' writes landing before each request |
| CoreMemory.BootstrapIsIdempotent | memu/core_memory.py:525-563 | undisturbed, a bootstrap fills exactly the blocks the agent lacks, and a second one changes nothing, whatever it is given |
| CoreMemory.CallsEnd | memu/core_memory.py:341-383 | every call ends within its bounded number of requests, whatever lands in between |
| CoreMemory.TenRequestsEnd | memu/core_memory.py:341-518 | ten requests end any call |
| CoreMemory.StaleUpdateOverwrites | memu/core_memory.py:365-376 | left alone, an update writes its content whatever revision it was given |
| CoreMemoryRuns.BlocksAreReplays | memu/core_memory.py:341-518 | linearization: each block is the replay of the successful calls, removals and bootstraps in revision order, under any interleaving |
| CoreMemoryRuns.BootstrapIsSeed | memu/core_memory.py:525-563 | a bootstrap's block is an event of the runs: a create at the moment it is made, which fails if the block is there |
| CoreMemoryRuns.LogInRevisionOrder | memu/core_memory.py:341-518 | log order is revision order, and revisions are consecutive |
| CoreMemoryRuns.WroteIffWritten | memu/core_memory.py:341-518 | a call that returned wrote exactly once, one that raised or is still running wrote nothing |
| CoreMemoryRuns.ExhaustionMeansContention | memu/core_memory.py:399-518 | giving up means at least five (for an update four) other writes to that block landed meanwhile |
| CoreMemoryRuns.LimitsHoldIff | memu/core_memory.py:318-563 | a block within its limit stays so all along a run of any calls if and only if no bootstrap creates it larger |
| CoreMemoryRuns.SnapshotWithinBudget | memu/core_memory.py:263-276 | a snapshot read block by block while others write totals at most 10,500, below the unchecked budget, unless a bootstrap created a block too large |
| CoreMemoryRuns.SystemAndPersonaStand | memu/core_memory.py:318-328 | an agent's System or Persona block never changes unless somebody appends to that very block, removes it, bootstraps it while it is missing, or writes it as neither agent nor worker, whatever happens to other blocks |
| CoreMemoryRuns.AppendWritesAnyBlock | memu/core_memory.py:385-438 | with an append they can: it asks for no permission |
| Strings.StripTrims | memu/core_memory.py:410 | the stripped text is the one text without whitespace at its ends that the original consists of between whitespace |
| CoreMemoryHistory.MeaningIsDoing | memu/core_memory.py:399-488 | an update makes its content of a block, an append the old content, the separator and its text, whitespace at the ends cut off, and just its text of an empty or missing block, a replacement exchanges the first occurrence, and otherwise nothing is made |
| CoreMemoryHistory.BlocksAreLatest | memu/core_memory.py:341-518 | a block holds what the last entry of the log on it stored |
| CoreMemoryHistory.EntriesDo | memu/core_memory.py:341-518 | under any interleaving every entry of the log stored what its call makes of what the entry before it on the same block had left, and a bootstrap's entry came where none had been left |
| CoreMemoryHistory.AppendsJoin | memu/core_memory.py:399-438 | a block that was missing and has only been appended to, with texts that have no whitespace at their ends, holds all of them, in revision order, joined by their separators |
| CoreMemoryHistory.AnswersAreLogged | memu/core_memory.py:345-436 | the content and revision a call returns are those of its own log entry, and the tokens are that content's count |
| CoreMemoryHistory.RefusedIff | memu/core_memory.py:302-335 | a call is denied exactly when its caller may not write the block, an unsafe update excepted; an update is invalid exactly when it is unsafe or, allowed, above the block's limit |
| CoreMemoryHistory.InvalidIff | memu/core_memory.py:401-501 | an append or replacement that has read the block goes on to write a text, on the revision it read, exactly when that is what it makes of the block and the text fits the block's limit; otherwise it is refused |
| Truncation.TruncateList | memu/core_memory.py:122-125 | the result is the longest tail that fits, or the last item |
| Truncation.TruncateDict | memu/core_memory.py:126-144 | as few as possible of the oldest unprotected entries go, protected ones stay |
| Truncation.OldestGoFirst | memu/core_memory.py:130-136 | eviction is by age: with an entry go all unprotected older ones |
| BatchProjection.ProjectTaskDag | memu/projection.py:49-139 | the two loops compute the fold of the events and then the resolved edges |
| BatchProjection.FoldRow | memu/projection.py:51-130 | one row of the first loop is one step of the fold |
| BatchProjection.ResolveEdges | memu/projection.py:132-137 | the second loop links every node to its parent on record, once |
| BatchProjection.ProjectionIsLocal | memu/projection.py:51-130 | a node exists exactly when its task was seen, and its fields are the fold of its own events alone |
| BatchProjection.ChildrenAreEdges | memu/projection.py:74-139 | children are exactly the edges read off the stream, each listed once |
| BatchProjection.FinalParentIsOnRecord | memu/projection.py:74-82 | the parent on record at the end is the one that the task's last draft names |
| BatchProjection.ChildrenMatchParentsIff | memu/projection.py:132-137 | children(p) is the set of nodes whose parent is p, for every p, if and only if no draft named a seen parent while its task's last draft names another |
| BatchProjection.DraftedOnceEdges | memu/projection.py:132-137 | in particular when every task is drafted at most once |
| BatchProjection.ProjectionConservesCost | memu/projection.py:51-130 | the tasks' total spending is the events' total cost |
| BatchProjection.SwapKeepsFields | memu/projection.py:51-130 | swapping neighbouring events of different tasks changes no field of any node |
| BatchProjection.SwapKeepsEdgeIff | memu/projection.py:74-139 | and it moves an edge exactly when one of the two is the parent's first event, the other drafts the child under it, and no other draft records the edge, the child's last one included |
| BatchProjection.SwapKeepsProjection | memu/projection.py:49-139 | with tasks drafted at most once the whole projection survives, up to the order of children |
| BridgeLedgers.BridgeLedger.ProcessEvent | memu/bridge_ledger.py:59-163 | one event updates log, tasks, links, roots and system notes as one step of the ledger function |
| BridgeLedgers.BridgeLedger.ProcessSystemEvent | memu/bridge_ledger.py:165-191 | heartbeats, lane notes and dead letters, by kind |
| BridgeLedgers.TablesTellTheStream | memu/bridge_ledger.py:64-191 | after any stream, whatever the log's bound: a gateway's entry is its last heartbeat, a lane's note the last about it, and none exactly when there was none; the dead letters are all that came, in order; the roots are those that drafts named |
| BridgeLedgers.BridgeLedger.HaltExecuting | memu/bridge_ledger.py:151-155 | a halt marks exactly the executing tasks |
| BridgeLedgers.RetainedEvents | memu/bridge_ledger.py:64-67 | what the log retains for every bound, positive, zero or negative |
| BridgeLedgers.RetainsLastIff | memu/bridge_ledger.py:64-67 | the log is the last max(0, bound) events of every stream if and only if the bound is not zero |
| BridgeLedgers.SpentIsWholeHistory | memu/bridge_ledger.py:64-91 | compute_spent sums the task's whole history, however little the log retains |
| BridgeLedgers.TaskFieldsAt | memu/bridge_ledger.py:81-163 | a task's fields are a fold of the stream, independent of the log's bound |
| BridgeLedgers.ChildrenAreEdges | memu/bridge_ledger.py:103-163 | a child is listed exactly when one of its events found its parent known, on any stream, events without a task included |
| TaskHistory.ProjectedTaskTells | memu/projection.py:51-130 | read off the stream: a node's status is what its last status event stands for, its gateway what its last lease, claim, rejection or expiry says, its title, budget and completion time those of the last event that gives one, its events all of its own in order |
| TaskHistory.NodesInOrder | memu/projection.py:57-66 | the nodes come in the order in which events first name their tasks |
| TaskHistory.LedgerTaskTells | memu/bridge_ledger.py:81-163 | the same of the ledger's tasks, whatever the log's bound, and of root prompt and last update; a task is halted exactly when its last status event is a claim and a halt that names any task came after it |
| LedgerRefinement.AgreesIffNoParting | memu/bridge_ledger.py:59-163 | ledger and batch agree on every field of every task after every event if and only if the stream holds no foreign lease, early title or effective halt |
| LedgerRefinement.LedgerRefinesBatch | memu/bridge_ledger.py:59-163 | without such events the ledger's tasks carry what the batch projection computes |
| LedgerRefinement.ParentsAgree | memu/projection.py:74-82 | parents on record agree whatever the stream |
| LedgerRefinement.EdgesWithinBatchIff | memu/bridge_ledger.py:157-161 | the ledger's edges are among the batch's if and only if no task was redrafted after an event that found its drafted parent seen, with no draft naming that parent when it was seen |
| LedgerRefinement.RedraftStrands | memu/bridge_ledger.py:97-107 | a stream of four events that is redrafted so, and the edge it strands |
| LedgerRefinement.EdgesAgreeIffInTime | memu/bridge_ledger.py:157-161 | with tasks drafted once, the edges are all there if and only if each parent that a task's last draft names has its first event no later than the task's last |
| LedgerRefinement.ChildrenWithinBatch | memu/bridge_ledger.py:157-161 | the same of the two programs' children lists |
| LedgerRefinement.SwapCanMoveEdge | memu/projection.py:74-139 | a stream of three events that loses an edge under such a swap |
| ForensicPaging.UuidTextOrder | memu/api.py:1916-1922 | ids compare as text, `id::text`, the way they compare as ids |
| ForensicPaging.RSplitFinds | memu/api.py:1914-1915 | `rsplit` from the right finds the separator, whatever the left part contains |
| ForensicPaging.CursorRoundTrip | memu/api.py:1948-1951 | a written cursor is read back as the boundary it was made from |
| ForensicPaging.RefusedCursors | memu/api.py:1912-1926 | a nonempty cursor is rejected if and only if it has no `__`, and fails in the database if and only if what stands before its last one is no time |
| ForensicPaging.RecallIsRest | memu/api.py:1912-1953 | the page for a cursor is the page of the filtered rows behind that row |
| ForensicPaging.WalkIsExact | memu/api.py:1912-1953 | on a fixed table, following next_cursor ends and yields exactly the filtered rows in order, no gap and no repeat |
| ForensicPaging.WalkOverChangingTable | memu/api.py:1912-1953 | on a changing table the walk is strictly ordered, invents nothing, and misses no row that was there throughout |
| ReflectionReview.ReviewQueue.TakeAction | memu/api.py:2164-2347 | approve, deny, edit and inspect with their error replies, as one step on the three tables |
| ReflectionReview.ReviewQueue.ProcessTimeouts | memu/api.py:2351-2408 | the sweep accepts the listed proposals one after another |
| ReflectionReview.ReviewQueue.WriteMemory | memu/api.py:1993-2055 | inserts the memory and ends the validity of the one it supersedes |
| ReflectionReview.RunsSettle | memu/api.py:2164-2408 | over every run with each call as one step: pending or rejected, no memory; accepted, exactly one and valid; superseded, two of which exactly the second is valid |
| ReflectionReview.MemoriesAreAuthored | memu/api.py:1993-2408 | over every run each memory is its proposal's tenant's, and says what was proposed or what an edit of that proposal made of it; a timeout's memory never says the latter |
| ReflectionReview.StatusMovesForward | memu/api.py:2183-2344 | superseded and rejected are final, nothing returns to pending, and an accepted proposal can only be superseded |
| ReflectionReview.SweepsAudited | memu/api.py:2365-2408 | a sweep adds one audit row per accepted proposal, in order |
| ReflectionReview.TimeoutsRespectExpiry | memu/api.py:2365-2408 | no proposal is accepted by timeout before its expiry |
| ReflectionAnswers.AnswersTell | memu/api.py:2164-2347 | over every run: an action is done if and only if the tenant has the proposal, its status allows the action and an edit has a text; then the proposal has the answered status, the answered memory is the one written, the answered superseded one ends now and points to it, and nothing else changed; any other answer says what failed and changes nothing |
| ReflectionAnswers.DenialStands | memu/api.py:2212-2240 | a proposal once denied stays rejected, never gets a memory and is in no later sweep's answer |
| ReflectionAnswers.SweepsTell | memu/api.py:2365-2408 | a sweep accepts by timeout exactly the tenant's pending proposals whose time is up, each with its own memory of what it proposed, changes nothing else and leaves none overdue |
| ReflectionStatements.AloneIsAct | memu/api.py:2164-2347 | the statements of an uninterrupted call amount to the queue's step |
| ReflectionStatements.AloneIsTimeout | memu/api.py:2378-2404 | and those of one row of an uninterrupted sweep to the sweep's step |
| ReflectionStatements.SteadyUntilClash | memu/api.py:2183-2404 | statement by statement, as long as no call reads a proposal to change it while another has read and not yet marked it, at most one is changing it, and it is settled whenever none is |
| ReflectionStatements.SettledIff | memu/api.py:2183-2404 | statement by statement, at every quiet moment a proposal is settled if and only if at most one call set out to accept it, at most one to supersede it, and, where one did, its last status update is no denial's |
| ReflectionStatements.SettledIffNoClash | memu/api.py:2183-2404 | on a proposal nobody denies, at every quiet moment it is settled if and only if no two calls clashed so |
| ReflectionStatements.RaceWritesTwice | memu/api.py:2242-2270 | two interleaved approvals leave one accepted proposal with two valid memories |
| MemoryDedupe.MemoryStore.Dedupe | memu/api.py:4132-4178 | the loop over the groups, stopped by the first refused statement; a dry run changes nothing and reports the same counts |
| MemoryDedupe.SucceedsIff | memu/api.py:4162-4173 | the run succeeds if and only if redirecting all links makes no self-link and no collision, and no task points to a dropped row |
| MemoryDedupe.EachHashKeepsItsOldest | memu/api.py:4138-4149 | after a merge each hash has one row left, its oldest |
| MemoryDedupe.EveryRowHasItsKept | memu/api.py:4162-4173 | no hash disappears: a dropped row leaves the one it was merged into |
| MemoryDedupe.LinksFollowTheirRows | memu/api.py:4163-4173 | the links are the old ones with their ends moved to the kept rows, and none dangles |
| MemoryDedupe.AccessesAreConserved | memu/api.py:4155-4173 | the access counts are conserved, in all and per hash |
| MemoryDedupe.CountsAreExact | memu/api.py:4175-4178 | the reported count is the number of rows that went |
| MemoryDedupe.MergedIsSharedAccess | memu/api.py:4155-4178 | the reported access count, of a dry run too, is that of all rows that share their hash with another |
| MemoryDedupe.FailureCountsTwice | memu/api.py:4155-4173 | a refused statement leaves its group's accesses counted twice, by exactly the dropped rows' share |
| EvidenceWrites.ComputeCanonicalPayload | memu/schema_contract.py:89-117 | the loop builds the canonical payload |
| EvidenceWrites.SameCanonicalIff | memu/schema_contract.py:107-117 | two payloads are the same if and only if stripped text, type, agent and the seven fields agree, absent counting as null |
| EvidenceWrites.TransportFieldsAreIrrelevant | memu/schema_contract.py:81-86 | transport-only metadata never matters |
| EvidenceWrites.MemoryTable.CreateMemory | memu/api.py:976-1098 | an uninterrupted call is the look-up step followed by the insert step |
| EvidenceWrites.KeysStayUnique | memu/api.py:999-1010 | over every interleaving a tenant has at most one row for a key, and a metadata key stands in at most one row |
| EvidenceWrites.RowsPersist | memu/api.py:1074-1098 | a row keeps its id and stored payload forever |
| EvidenceWrites.SameKeySameRow | memu/api.py:999-1031 | two successful writes with one key name the same row and had the same canonical payload, however their statements interleave |
| EvidenceWrites.CreatedOnce | memu/api.py:1074-1098 | one key is created once, whoever races for it |
| EvidenceWrites.KnownKeyIff | memu/api.py:1011-1031 | an evidence call about a known key is a replay if and only if the key's row was evidence and the payloads agree, a conflict otherwise, so always under a learning row; it changes nothing |
| EvidenceWrites.KeylessEvidenceIsKeptIff | memu/api.py:1033-1098 | evidence without a key makes its own row, whatever comes between its two statements, if and only if no stored row has its metadata's idempotency_key when it inserts |
| EvidenceWrites.ReplayIgnoresTag | memu/api.py:999-1020 | a retry right after its creation is answered as a replay although its metadata repeats its own idempotency_key |
| EvidenceWrites.LookUpTells | memu/api.py:999-1072 | a look-up answers an evidence call whose nonempty key has a row in its tenant, and a learning call with a duplicate; every other call goes on to insert |
| EvidenceWrites.InsertTells | memu/api.py:1074-1098 | an insert goes through exactly when no row has the request's key in its tenant nor its metadata's key in any; the row made has the request's tenant, kind, keys and, for evidence under a key, canonical payload |
| RankFusion.RrfFuse | memu/concept_search.py:24-49 | the nested loops compute every id's score and the stable ranking; it raises exactly when a named item stands at rank -k |
| RankFusion.FusedOnceEach | memu/concept_search.py:34-49 | every named id appears, once, and scores do not increase down the list |
| RankFusion.ScoresIgnoreListOrder | memu/concept_search.py:37-44 | scores do not depend on the order of the lists |
| RankFusion.DominantComesFirst | memu/concept_search.py:34-49 | an id that in every list has at any place stood at least as often as another precedes it in the result, for every k from 0 on |
| RankFusion.AheadComesFirst | memu/concept_search.py:34-49 | an id ahead of another in every list that has the other, and has it once, precedes it, whatever else the lists repeat |
| RankFusion.AheadOutscoresIff | memu/concept_search.py:37-44 | in one list no longer than k, an id that stands once, ahead of another, outscores it if and only if the other stands once |
| RankFusion.RepeatedOutscores | memu/concept_search.py:37-44 | two places, however low, outweigh one, however high, in a list no longer than k |
| FusionOrder.PlaceIsReciprocal | memu/concept_search.py:37-42 | a place is worth the reciprocal of k plus its rank |
| FusionOrder.PlacesAddUp | memu/concept_search.py:37-42 | what a list is worth to an id is the sum over its places |
| FusionOrder.ListsAddUp | memu/concept_search.py:37-42 | the score is the sum over the lists |
| FusionOrder.FusedInOrder | memu/concept_search.py:43-49 | an id is represented by the first item any list has under it; of two ids the one listed first scores higher or, scoring the same, was seen first |
| Clustering.Grow | memu/memory_agent.py:322-333 | the inner loop: a compact cluster in the order of the ranking, and whatever it leaves ranks behind its centroid and is far away, or found it full of members that all rank ahead |
| Clustering.ClusterBySimilarity | memu/memory_agent.py:294-339 | the result is those groups of a greedy partition of the embedded memories that have at least the minimum size: centroids first in rank, members near, nothing near left out but for a full group of better ranked ones |
| Clustering.ClustersAreGreedy | memu/memory_agent.py:314-339 | every cluster, the only one included, is compact, of permitted size, of given embedded memories; it is disjoint from the later ones, its centroid ranks ahead of all theirs, and none of theirs is within its threshold unless it was full of members that rank ahead |
| Clustering.RankedByStrength | memu/memory_agent.py:307-312 | centroids are tried in the order of strength and, among equally strong memories, in the order given |
| AgentIndex.SubconsciousStream.UpdateAgentVector | memu/cognitive_workers.py:303-330 | the method is the update step, including the broadcast and the refused widths |
| AgentIndex.SubconsciousStream.RemoveAgent | memu/cognitive_workers.py:332-342 | the method is the removal step |
| AgentIndex.SubconsciousStream.EvictionSweep | memu/cognitive_workers.py:349-356 | one round removes the stale agents one by one, up to the first removal that raises |
| AgentIndex.SubconsciousStream.SelectTargets | memu/cognitive_workers.py:384-412 | the targets are those of the rows at or above the threshold, the source excepted, on an index in any shape a run can reach |
| AgentIndex.TargetsAreTheNearOnes | memu/cognitive_workers.py:403-412 | on a valid index these are exactly the other agents whose vector is near enough, each once |
| AgentIndex.UpdateRefinesIff | memu/cognitive_workers.py:303-330 | an update is a map update if and only if the index is empty or the vector has its width |
| AgentIndex.UpdateKeepsValidIff | memu/cognitive_workers.py:321-330 | the three parts stop representing one map exactly when a newcomer brings another width |
| AgentIndex.FailedNewcomerShiftsRows | memu/cognitive_workers.py:321-330 | the next newcomer's row is then filed under the agent that failed |
| AgentIndex.RemovalRepairs | memu/cognitive_workers.py:332-342 | removing the failed agent first raises, yet restores the index |
| AgentIndex.RemoveRefines | memu/cognitive_workers.py:332-342 | removal takes the agent out of the map, and raises never on a valid index |
| AgentIndex.SweepEvictsExactlyTheStale | memu/cognitive_workers.py:349-356 | a sweep removes exactly the agents not seen within the time to live |
| AgentIndex.RunsKeepShape | memu/cognitive_workers.py:303-357 | whatever is called with whatever vectors, ids stay distinct with a time for each, and rows of one width, no more than ids |
| AgentIndex.RunsRepresent | memu/cognitive_workers.py:303-357 | from the empty index, with all vectors of one width, the three parts always represent the map that the updates, removals and sweeps mean |
| AgentHistory.InnerProduct | memu/cognitive_workers.py:404 | the product of two vectors is the sum of the products of their entries |
| AgentHistory.KnownUpdateTells | memu/cognitive_workers.py:303-323 | an update of an agent with a row exchanges that row alone, for the vector or a single number spread, both scaled to norm one; any other width raises and changes nothing but the time last seen |
| AgentHistory.NewUpdateTells | memu/cognitive_workers.py:324-330 | an update of an unlisted agent lists it in any case, and adds its row exactly when there are none or the width fits; otherwise it raises |
| AgentHistory.KnownIsLastHeard | memu/cognitive_workers.py:303-357 | an agent is known by the last nonzero vector it sent, until it is removed or a sweep comes more than 300 seconds after that |
| AgentHistory.TargetsAreCosines | memu/cognitive_workers.py:384-412 | on a run with vectors of one width a broadcast goes to exactly the agents so known whose vector's cosine with its own is at least 0.85, the sender excepted, and each comes with that cosine |
| EventSummaries.TaskOrchestrator.HandleEvent | memu/task_orchestrator.py:129-149 | one event is one step of its own task, and no other task's |
| EventSummaries.TaskOrchestrator.Start | memu/task_orchestrator.py:114-127 | after any stream of all tasks' events each task stands as after its own events alone |
| EventSummaries.TaskOrchestrator.SummarizeTask | memu/task_orchestrator.py:151-202 | the summary is stored before the publish, and the buffer cleared only after it |
| EventSummaries.TaskOrchestrator.Extract | memu/task_orchestrator.py:159-190 | the loop sorts the events' values into the four columns; no summary exactly when a value it keeps is no text |
| EventSummaries.ConservedIffPublished | memu/task_orchestrator.py:129-202 | of every task in a stream of many: superseded events followed by the buffer are its events, in order and each once, if and only if no publish of its summaries failed |
| EventSummaries.TokensAreTheEstimate | memu/task_orchestrator.py:138-140 | the token count is always the buffer's estimate |
| EventSummaries.StaysBelowIff | memu/task_orchestrator.py:142-149 | in every stream every task whose last event raised nothing is below both thresholds, if and only if both are at least one |
| EventSummaries.SummaryCountsItsEvents | memu/task_orchestrator.py:177-190 | a stored summary counts the tokens of the very events it supersedes |
| SummaryHistory.SummariesTell | memu/task_orchestrator.py:129-202 | an event is summarised, with those since the last published summary, exactly when these reach a threshold and what would be kept is text; the summary says, in order, what the first five decisions and findings and the first three blockers and actions among them say, and nothing else is stored |

## Left out

- NeighborhoodLocks.NeighborhoodLock.RenewRound: the timer between rounds and the cancellation of the renewer task; a schedule of rounds stands for them. Constructor argument checks and a cancellation in the middle of `__aenter__` are not modelled.
- NeighborhoodLocks: the neighbourhood lock runs over the SQLite registry; over the Markdown registry it follows by `AgreesIffSeparate`.
- MarkdownLocks: lock files hold a lease or unreadable text; payloads of other JSON shapes, several processes on one directory, and file system errors other than replacing a directory are not modelled, nor the temporary file that acquiring "" or "." leaves beside the lease files.
- LaneLocks: one acquire, renewal, release or check is one step; `LaneRequests` takes only the acquire apart. A fence read fails only when the key is absent. The rollback of a partly acquired list of lanes, heartbeats, dead letters and publishing are not modelled.
- CoreMemory: request errors other than a revision conflict, the bucket's value size limit, and the firewall's and tokenizer's inner workings (they are parameters).
- BridgeLedgers: tasks are values in a map; that `process_event` returns a live object is not modelled. `get_dag`, `get_event_log`, `get_trajectory` and `materialize_tasks` only read.
- EventDag: event cost is a real number, so that rounding in sums is not modelled. A payload value that is an explicit null where the code has a default (`gateway_id`, `title`, `lane`, `compute_budget`) is not modelled: None is an absent key there.
- ForensicPaging: the cursor's time is assumed to be accepted as the text it is; asyncpg expects a datetime for a timestamptz argument and would refuse it. Times are integers with a faithful text form; the request's filters are one predicate. A cursor whose time or id the database cannot parse is a server error there and an error value here.
- ReflectionReview.RunsSettle: one call is one step; `ReflectionStatements` has the statements. Rows that fail one by one in the sweep are not modelled.
- ReflectionStatements: a sweep's query is one read for each of its rows.
- MemoryDedupe: the statements of other clients between those of one run; overflow of the access counter, the update time.
- EvidenceWrites: hashes are free of collisions, so that the payload stands for its hash. That merging a learning duplicate rewrites the metadata of the row it hits, and with it perhaps its idempotency_key, is not modelled. The content search of a learning write is an input; the superseding updates, relationships and entity links that follow the insert do not touch keys.
- RankFusion: scores are exact rationals; items are values, so that writing `rrf_score` into shared dictionaries is not modelled. An `id` stands for its text.
- Clustering: similarity and decay score are given; `cosine_similarity` itself is not modelled.
- AgentIndex: numbers are reals and the norm is a parameter. An update that slips between the listing of the stale agents and their removal is not modelled, nor is the injection that follows the selection.
- EventSummaries: the compressed token count and the time stamps of a summary. A payload's text length is given.
- Decay scoring, the parallel worker router, the warden, the circuit breaker, migrations, publishers, the web interface, adapters and scripts: plumbing, or without further invariants.
