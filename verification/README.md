# RisingLight in Dafny

RisingLight is a columnar SQL engine. This project models the parts of it that rest on
invariants, as Dafny classes, methods and functions, and proves what they promise.

* **Versions** (`Snapshots`, `Versions`, `VersionProtocol`, `VersionTheorems`, `VersionRuns`,
  `VersionHistories`, `TableHistories`): the version manager as an object whose methods are its critical sections, a
  state machine in which two-phase commits, failed appends, pins, handles, unpins, notifications
  and vacuums interleave freely, and what a reader sees as a function of the commits before its
  pin. One commit is in flight at a time, as the manifest lock ensures.
* **Manifest and recovery** (`Manifest`, `Replays`, `Recovery`, `Engines`, `EngineRuns`): the
  Begin/End log, its replay, bootstrap, the rewritten manifest, histories of commits, failed
  appends, crashes and reopens, and runs of the engine's own requests.
* **Merge iterator** (`Orders`, `Merges`, `MergeIterator`): the hand-written heap of cursors over
  refillable chunk buffers, against a greedy merge.
* **Block encodings** (`Bytes`, `Varints`, `Blocks`, `BlockIO`, `Runs`, `Rle`, `RleRoundTrip`,
  `Dictionaries`, `DictRoundTrip`, `BlockIndexes`, `Formats`): byte layouts, builders and
  stateful cursors. One builder and one cursor class cover plain and nullable blocks, with
  fixed-width or offset-table values, where the source composes generic types; value codecs are
  parameters that decode what they encode.
* **Operators** (`Chunks`, `JoinSpecs`, `JoinCounts`, `HashJoin`, `Grouping`, `MergeJoin`, `NestedLoop`,
  `SemiJoins`, `JoinAgreement`, `SqlJoins`, `Sorting`, `TopN`, `Aggregation`): alternative algorithms,
  each proved against one specification, under every chunking of their inputs.
* **Plan rewrites** (`Bags`, `Plans`, `Lookups`, `Executions`, `ExecutionLaws`, `JoinLaws`, `Pruning`,
  `PlanRules`, `RuleInstances`, `PlanFailures`, `LookupFailures`): what a plan means, as a
  bag of named rows; how the executor runs it, over tuples and with expressions looked up in
  schemas; what it returns, operator by operator, without either evaluator; and the rewrite rules
  as relations, at any depth.
* **Boolean kernels** (`Bitmaps`, `Kernels`, `BoolExprs`): 64-bit words against three-valued
  logic, up to a filter that looks at raw slots only.
* **Deletion and compaction** (`DeleteVectors`, `Compaction`), **in-memory tables**
  (`MemoryTables`).

`dafny verify dfyconfig.toml` checks everything.

## Where the code falls short of the promise

Unless said otherwise these are stated exactly, as an equivalence with a condition a caller can
check, and with an input or a run that shows the failure:

* Replay does not clear its buffer at a Begin record, so the entries of an append that failed
  half-way are committed by the next End record (`Recovery.FailedAppendsLeakIff`,
  `EngineRuns.FailedInsertComesBack`).
* Compaction leaves the delete vectors of the rowsets it removes. Once such a table is dropped the
  engine never opens again; the same goes for an insert that commits after the drop of its table,
  a table name logged twice and a record cut in the middle (`Engines.ReopensIff`,
  `Engines.DropOfOrphanBlocksReopen`, `EngineRuns.OrphanRun`, `EngineRuns.InsertRacesDrop`,
  `EngineRuns.SameNameRun`, `EngineRuns.CutRecordRun`).
  And a rowset id that is handed out again can meet an old delete vector
  (`Recovery.NewRowsetsStartCleanIff`, `EngineRuns.ReusedIdRun`).
* The compactor pins before it takes the table lock, so a delete in between is undone
  (`Compaction.CompactTable`, `Compaction.CompactionKeepsRowsIff`,
  `Compaction.DeletedRowComesBack`).
* Pushing a join condition below an outer or anti join changes results
  (`PlanRules.CondLeftSoundIff`, `PlanRules.CondRightSoundIff`, `PlanFailures.AntiJoinLosesRow`,
  `PlanFailures.RightJoinLosesRow`).
* Pushing a filter through an aggregation, and rotating joins below a projection, can hide which
  column a plan uses. The plan still runs, but a later rule then takes the column away and the
  executor panics (`PlanRules.FilterHashAggRows`, `PlanFailures.PushedFilterLosesColumn`,
  `PlanRules.JoinRotate1Rows`, `PlanRules.JoinRotate1SoundIff`, `PlanFailures.RotationLosesColumn`).
  The same happens to derived tables with column aliases (`PlanFailures.AliasLosesColumn`) and to
  conditions that are only a column (`PlanRules.FilterMergeSound`, `PlanFailures.SplitLosesColumn`,
  `PlanFailures.ReferenceLosesColumn`).
* The executor reads a computed expression, even a constant, from its input where the schema has
  it. On a row that an outer join has padded with nulls that is null, so a rewrite that changes
  what is looked up changes rows (`LookupFailures.PruningChangesRows`,
  `LookupFailures.SkippingChangesRows`, `LookupFailures.MergingChangesRows`). Where every computed
  column on a padded side that could be computed again would be null there too, and columns and
  aggregates come from one place each, reading and computing agree (`Executions.ExecIsRows`). The
  first half of this guard is exact (`LookupFailures.PruningSafeIff`,
  `LookupFailures.SkippingSafeIff`).
* A filter on a cast to boolean can keep rows on which it is null (`BoolExprs.FilterCast`,
  `BoolExprs.NullSumIsKept`).
* Run lengths from 0xF000_0000 on are written but cannot be read (`Varints.ListRoundTripIff`,
  `Varints.FirstUnreadable`, `RleRoundTrip.RoundTrip`).
* A nullable reader overwrites the bitmap of a builder that already holds items
  (`BlockIO.ReadInto`, `BlockIO.ReadTwice`).
* Merge join returns nothing for an empty key list (`JoinAgreement.MergeAgreesWithHash`,
  `JoinAgreement.EmptyKeysDisagree`), and the key-based joins let null match null
  (`SqlJoins.JoinIsSqlIff`, `SqlJoins.NullKeysMeet`, `SemiJoins.SemiAgreeIff`,
  `SemiJoins.NullKeysSemi`).

## Model

| member | source | states |
|---|---|---|
| Snapshots.AddRowsetMembers | src/storage/secondary/version_manager.rs:53-55 | adding a rowset id adds exactly that member, touches no delete vector and keeps the nested maps free of empty collections |
| Snapshots.DeleteRowsetMembers | src/storage/secondary/version_manager.rs:57-63 | when it does not panic, deleting a rowset id removes exactly that member and drops an emptied table |
| Snapshots.AddDvMembers | src/storage/secondary/version_manager.rs:65-72 | adding a delete-vector id adds exactly that member |
| Snapshots.DeleteDvMembers | src/storage/secondary/version_manager.rs:74-84 | when it does not panic, deleting a delete-vector id removes exactly that member and drops emptied inner maps |
| Snapshots.CanonicalUnique | src/storage/secondary/version_manager.rs:42-101 | two snapshots without empty inner collections and with the same members are equal: the nested maps hide no state |
| VersionManagers.VersionManager.constructor | src/storage/secondary/version_manager.rs:173-182 | a new manager is the empty state at epoch 0 |
| VersionManagers.VersionManager.CommitBegin | src/storage/secondary/version_manager.rs:233-293 | the first critical section puts new objects into the pools, applies all operations to a copy of the current snapshot and leaves the published state alone; a panic keeps what had reached the pools |
| VersionManagers.VersionManager.CommitPublish | src/storage/secondary/version_manager.rs:298-308 | the second critical section publishes the staged snapshot under the next epoch and records the deletions to apply there |
| VersionManagers.VersionManager.Pin | src/storage/secondary/version_manager.rs:312-322 | pinning raises the count of the current epoch only and hands out that epoch's snapshot |
| VersionManagers.VersionManager.Unpin | src/storage/secondary/version_manager.rs:405-423 | unpinning lowers the epoch's count, forgets an epoch at zero, and notifies the vacuum exactly when that epoch is no longer current |
| VersionManagers.VersionManager.FindVacuum | src/storage/secondary/version_manager.rs:334-364 | the vacuum epoch is the oldest pinned one or, without pins, the current one; exactly the deletions up to it are removed from the pool and from the pending list |
| VersionManagers.VersionManager.MinPinned | src/storage/secondary/version_manager.rs:336-339 | finds the least pinned epoch, or the current one |
| VersionManagers.VersionManager.Applicable | src/storage/secondary/version_manager.rs:343-349 | collects exactly the keys whose deletion epoch is not above the vacuum epoch |
| VersionManagers.VersionManager.TakeOut | src/storage/secondary/version_manager.rs:353-362 | removes exactly the given keys from the pool |
| VersionProtocol.StageKeepsInv | src/storage/secondary/version_manager.rs:252-292 | staging fresh operations never changes an existing pool object; every id of the staged snapshot resolves, and every id that leaves it is among the deletions |
| VersionProtocol.BeginKeepsInv | src/storage/secondary/version_manager.rs:233-293 | the first phase of a commit keeps the protocol invariant |
| VersionProtocol.EndKeepsInv | src/storage/secondary/version_manager.rs:298-308 | publishing keeps the protocol invariant |
| VersionProtocol.PinKeepsInv | src/storage/secondary/version_manager.rs:312-322 | pinning keeps the protocol invariant |
| VersionProtocol.UnpinKeepsInv | src/storage/secondary/version_manager.rs:405-423 | unpinning finds its epoch registered and keeps the protocol invariant |
| VersionProtocol.HandlesKeepInv | src/storage/secondary/version_manager.rs:324-332 | fetching and releasing pooled rowsets through a pin keeps the protocol invariant |
| VersionProtocol.RemovedIsUnseen | src/storage/secondary/version_manager.rs:334-364 | what a vacuum removes is in no pinned snapshot, in no held handle, not in the current snapshot and not in an in-flight commit's snapshot |
| VersionProtocol.VacuumKeepsInv | src/storage/secondary/version_manager.rs:334-364 | a vacuum keeps the protocol invariant |
| VersionProtocol.StepKeepsInv | src/storage/secondary/version_manager.rs:223-423 | every step of every interleaving keeps the protocol invariant |
| VersionTheorems.RunInv | src/storage/secondary/version_manager.rs:223-423 | the invariant holds in every state of every run |
| VersionTheorems.SnapshotsResolve | src/storage/secondary/version_manager.rs:223-364 | in every run, every rowset of a pinned, the current or an in-flight snapshot, and every delete vector, resolves in the pool to the object it was added with |
| VersionTheorems.PublishedNeverChange | src/storage/secondary/version_manager.rs:298-308 | published snapshots and added objects never change later in the run |
| VersionTheorems.NoPanic | src/storage/secondary/version_manager.rs:299-362 | in no run can the epoch assertion of a publish, the registration lookup of an unpin or the exclusive-ownership check of the vacuum fail |
| VersionTheorems.PublishStrandsIff | src/storage/secondary/version_manager.rs:299-306 | a publish strands a deletion exactly when it deletes something while no pin is live, no notification is queued and no vacuum is due |
| VersionTheorems.NoDeletionStranded | src/storage/secondary/version_manager.rs:299-423 | if deleting commits publish while some pin is live, each pending deletion always has an older live pin, a queued notification or a vacuum about to run |
| VersionTheorems.VacuumLeavesCurrent | src/storage/secondary/version_manager.rs:334-364 | after a vacuum without pins and commits in flight the pool is the current snapshot if and only if it holds no orphan of a failed commit |
| VersionRuns.DeletedRowsetGoes | src/storage/secondary/version_manager.rs:223-423 | a run in which a deleted rowset stays in the pool while a pin sees it, and is gone after the unpin's notification and the vacuum |
| VersionHistories.StageHolds | src/storage/secondary/version_manager.rs:252-292 | staging fresh operations leaves every rowset and delete vector it adds under its pool key, and changes nothing that was there |
| VersionHistories.CurrentIsPublished | src/storage/secondary/version_manager.rs:223-308 | in every run the current snapshot has exactly the rowsets and delete vectors that the operations of the published commits add and do not delete later, and the pools hold the objects these operations added |
| VersionHistories.PinSeesPublished | src/storage/secondary/version_manager.rs:312-332 | until it is given back, a pin sees exactly what the commits published before it leave, with the objects they were added with, whatever commits and vacuums come after |
| TableHistories.PinShowsCommits | src/storage/secondary/transaction.rs:226-256 | through a pin every rowset that those commits leave shows, in order, exactly the rows it was added with that no delete vector left by those commits has |
| TableHistories.PinShowsTable | src/storage/secondary/transaction.rs:219-289 | and the table shows the rows of exactly these rowsets |
| Manifests.Replay | src/storage/secondary/manifest.rs:120-163 | the replay loop returns what the record scan defines: the entries of completed transactions, or nothing for a torn file |
| Manifests.ScanAppend | src/storage/secondary/manifest.rs:165-183 | a complete append commits whatever was buffered before it together with its own entries |
| Manifests.ScanPrefix | src/storage/secondary/manifest.rs:140-156 | any proper record prefix of an append leaves its entries buffered and uncommitted |
| Manifests.RecoverLoop | src/storage/secondary/storage.rs:67-111 | the bootstrap loop computes the recovery fold over the replayed operations: rowset and delete-vector sets, id counters, catalog |
| Replays.RecoveredIs | src/storage/secondary/storage.rs:67-111 | recovered are exactly the rowsets and delete vectors that are added and not deleted later; table numbers are those of the creation, for tables not dropped later; each id counter is one above the highest id ever added |
| Replays.RecoverFailsIff | src/storage/secondary/storage.rs:70-83 | recovery is in error if and only if some operation creates a table under a name in use or drops one that is not there |
| Replays.NextIdsAreFresh | src/storage/secondary/table.rs:80-90 | the rowset and delete-vector ids handed out after an open collide with nothing in the pools |
| Replays.EntriesOutside | src/storage/secondary/manifest.rs:140-156 | entries outside of a transaction are dropped |
| Manifests.TableOpsRebuildCatalog | src/storage/secondary/storage.rs:70-83 | replaying the kept table operations alone rebuilds the same catalog, ids included |
| Manifests.RewrittenRecoversSame | src/storage/secondary/storage.rs:113-181 | the manifest that bootstrap writes opens again and recovers the same rowsets, delete vectors, catalog and table operations, in whatever order the ids were listed; both id counters are one above the listed ones |
| Recovery.StagingMatchesReplay | src/storage/secondary/storage.rs:84-108 | staging a changeset in memory and replaying its log entries give the same rowset and delete-vector sets |
| Recovery.ScanWritten | src/storage/secondary/manifest.rs:132-183 | what replay makes of a file after any record prefix of an append: the entries wait behind the last End, or go with everything waiting before it |
| Recovery.CommitKeepsInv | src/storage/secondary/version_manager.rs:223-308 | a commit keeps the agreement between the running snapshot, what the commits logged and what replay returns |
| Recovery.FailedAppendKeepsInv | src/storage/secondary/version_manager.rs:295-296 | so does an append that fails at any record, or only in its final sync, while the process goes on |
| Recovery.CrashInAppendKeepsInv | src/storage/secondary/manifest.rs:165-183 | a crash after any record prefix of an append keeps the log at the last complete commit |
| Recovery.ReopenKeepsInv | src/storage/secondary/storage.rs:146-181 | a reopen that gets through keeps it, and without leaked entries rebuilds the snapshot of the last complete commit |
| Recovery.HistoryInv | src/storage/secondary/manifest.rs:120-183 | the agreement holds in every history of commits, failed appends, crashes and reopens |
| Recovery.RecoversLastCommit | src/storage/secondary/manifest.rs:120-183 | in every history without leaked entries, a bootstrap that gets through recovers exactly the rowsets and delete vectors of the last commit whose End record was written, and the engine it starts runs on that commit |
| Recovery.FailedAppendsLeakIff | src/storage/secondary/manifest.rs:136-162 | in every history, replay returns exactly what the commits since the last reopen logged if and only if no append that failed with an entry in the file has come before an End record since then, because the buffer is not cleared at Begin |
| EngineRuns.FailedInsertComesBack | src/storage/secondary/manifest.rs:136-162 | a history in which an insert whose commit failed is there after the next commit and a restart |
| Recovery.DropLeavesDvIff | src/storage/secondary/manifest.rs:278-316 | a committed drop removes the rowsets of the table and nothing of other tables, and leaves exactly those of its delete vectors that had outlived their rowset |
| Recovery.KeepsDvs | src/storage/secondary/compactor.rs:178-187 | a changeset without delete-vector deletions, such as a compaction's, keeps every delete vector, so it can orphan one |
| Recovery.DropReopensIff | src/storage/secondary/manifest.rs:278-316 | in every history without failed appends in the file, an engine that could be opened before a drop can be opened right after it if and only if the table had no delete vector that outlived its rowset |
| Engines.RequestReplayed | src/storage/secondary/storage.rs:69-83 | replaying a request's log changes the replayed catalog as serving it changes the running one, and fails exactly for a table name in use |
| Engines.ReopensIff | src/storage/secondary/storage.rs:146-170 | in every run of creates, drops, transactions, compactions, crashes and opens, where drops and transactions may commit on a state later than the one they started from, the engine can be opened from its manifest if and only if it never died inside a record, never logged a table name in use, never dropped a table of which something stayed behind and never added to a dropped table |
| Engines.LeftoverIsOrphan | src/storage/secondary/manifest.rs:290-311 | a drop that lists its table as it is at the commit leaves something behind if and only if a delete vector had outlived its rowset |
| Engines.DropOfOrphanBlocksReopen | src/storage/secondary/storage.rs:161-170 | such a drop leaves an engine that opens if and only if it opened before and there was no such delete vector; otherwise it opens at no later point of the run |
| EngineRuns.OrphanRun | src/storage/secondary/compactor.rs:178-187 | a run that ends in such a drop: two rowsets, a delete, a compaction and the drop |
| EngineRuns.CutRecordRun | src/storage/secondary/manifest.rs:136-138 | a run that ends in a crash inside a record, after which the engine does not open |
| EngineRuns.SameNameRun | src/storage/secondary/manifest.rs:245-251 | a run that creates one table twice: the second is logged before it is refused, and the engine does not open |
| EngineRuns.InsertRacesDrop | src/storage/secondary/transaction.rs:186-212 | a run in which an insert commits after the drop of its table, and the engine does not open |
| Recovery.NewRowsetsStartCleanIff | src/storage/secondary/storage.rs:84-105 | after a reopen from a rewritten manifest, new rowset ids carry no old delete vector if and only if every recovered delete vector names an id no greater than some live rowset |
| EngineRuns.ReusedIdRun | src/storage/secondary/storage.rs:84-105 | a run after which the next open hands out rowset id 0 again, with an old delete vector waiting under it |
| Orders.CmpEqual | src/storage/secondary/merge_iterator.rs:44-62 | two key lists compare equal exactly when they are the same list |
| Orders.CmpFlip | src/storage/secondary/merge_iterator.rs:44-62 | swapping the operands reverses a comparison |
| Orders.LeTransitive | src/storage/secondary/merge_iterator.rs:44-62 | the order of key lists is transitive, strictly where one step is strict |
| Orders.CmpReads | src/types/value.rs:14-18 | a key list is less than another if and only if it is a proper prefix or has the lower value where they first differ: null below everything, booleans below integers, false below true, integers by size |
| Merges.SortedReads | src/storage/secondary/merge_iterator.rs:44-62 | of two rows of a sorted list the earlier has the same key or the lower value in the first key column that differs |
| Merges.MergesInts | src/storage/secondary/merge_iterator.rs:221-301 | merging lists that ascend in an integer key column gives a list that ascends in it |
| Merges.GreedyKeepsOrder | src/storage/secondary/merge_iterator.rs:248-262 | always taking a least head takes a prefix of each input, in that input's order |
| Merges.GreedyKeepsBag | src/storage/secondary/merge_iterator.rs:248-262 | no row is lost, invented or duplicated |
| Merges.GreedySorts | src/storage/secondary/merge_iterator.rs:248-262 | over sorted inputs the output is sorted and not above anything left |
| Merges.GreedyToTheEnd | src/storage/secondary/merge_iterator.rs:221-301 | a run until all inputs are empty is a merge: each input in order, the same bag, sorted if the inputs are |
| MergeIterators.RootIsLeast | src/storage/secondary/merge_iterator.rs:74-80 | the root of the heap is not above any cursor |
| MergeIterators.MergeIterator.constructor | src/storage/secondary/merge_iterator.rs:34-42 | a new iterator has the visible rows of every child ahead |
| MergeIterators.MergeIterator.CompareData | src/storage/secondary/merge_iterator.rs:44-62 | the column-by-column loop is the lexicographic comparison of the sort keys: less exactly when the first key column that differs has the lower value |
| MergeIterators.MergeIterator.AddPending | src/storage/secondary/merge_iterator.rs:69-94 | sift-up restores the heap order and adds exactly the new cursor |
| MergeIterators.MergeIterator.ReplacePending | src/storage/secondary/merge_iterator.rs:118-153 | replacing the root and sifting down restores the heap order, returns the old root and exchanges exactly these two cursors |
| MergeIterators.MergeIterator.PopPending | src/storage/secondary/merge_iterator.rs:156-164 | popping keeps the heap order and removes exactly the old root |
| MergeIterators.MergeIterator.RequestFill | src/storage/secondary/merge_iterator.rs:171-186 | a refill moves the next chunk of an unfinished child into its buffer slot, or marks the child finished |
| MergeIterators.MergeIterator.NextVisible | src/storage/secondary/merge_iterator.rs:191-212 | finds the first visible row at or after the scan start, with or without a visibility map |
| MergeIterators.MergeIterator.FillOne | src/storage/secondary/merge_iterator.rs:228-238 | filling a slot loses no row and leaves the heap with one cursor per buffered child |
| MergeIterators.MergeIterator.TakeRoot | src/storage/secondary/merge_iterator.rs:254-261 | one turn of the loop takes a least head among all children and keeps one cursor per buffered child, except for a chunk just used up |
| MergeIterators.MergeIterator.PickRows | src/storage/secondary/merge_iterator.rs:244-262 | the pick loop takes a greedy run that is not empty, not longer than expected, and stops when a chunk is used up |
| MergeIterators.MergeIterator.NextBatch | src/storage/secondary/merge_iterator.rs:221-301 | a batch is a non-empty greedy run of the children of at most the expected size; none is returned exactly when nothing is left |
| MergeIterators.MergeIterator.Drain | src/storage/secondary/merge_iterator.rs:221-301 | for any sequence of positive batch sizes the concatenated batches are a merge of the children's visible rows, ascending in an integer key column if the children are, and reading ends |
| Plans.RowsTyped | src/planner/rules/plan.rs:510-519 | every row a plan means has exactly the columns the plan produces |
| Lookups.Stable | src/executor/mod.rs:182-193 | an expression has the same value on a consistent row, one whose computed columns hold what computing them again would give, and on every row derived from it |
| Lookups.RowsConsistent | src/planner/rules/schema.rs:24-43 | by induction on plans: every row of an unambiguous plan is consistent, through projections, aggregations and joins of every type |
| Executions.EvalAtAgrees | src/executor/mod.rs:182-193 | an expression that the executor resolves by position in its input's schema, read where it is found and computed where it is not, has the value it means |
| Executions.EvalRootAgrees | src/executor/mod.rs:182-193 | so has a condition, of which only the parts are looked up |
| Executions.FitsResolves | src/executor/mod.rs:182-193 | no column is missing when the executor of an unambiguous plan is built |
| Executions.ExecIsRows | src/executor/mod.rs:216-460 | for every unambiguous plan the executor returns the rows the plan means, as tuples of its schema |
| Executions.SameExecIff | src/executor/mod.rs:216-460 | two such plans of one schema return the same tuples if and only if they mean the same rows |
| ExecutionLaws.Widths | src/planner/rules/schema.rs:24-43 | every tuple has one value per column of the schema |
| ExecutionLaws.UnaryProjected | src/executor/evaluator.rs:155-157 | in any list of projected expressions, a unary operation is the operator applied to what projecting its operand gives |
| ExecutionLaws.BinaryProjected | src/executor/evaluator.rs:151-154 | a binary operation is the operator applied to its left and its right operand, in this order |
| ExecutionLaws.AndProjected | src/executor/evaluator.rs:151-154 | a conjunction is the three-valued one of its operands |
| ExecutionLaws.AndTable | src/array/ops.rs:170-184 | which is true if both are, false if one is, and null otherwise |
| ExecutionLaws.ConstProjected | src/executor/evaluator.rs:61-66 | a constant is its value |
| ExecutionLaws.RefProjected | src/executor/mod.rs:182-193 | a reference that the input does not have is the expression it refers to |
| ExecutionLaws.ColumnsProjected | src/executor/mod.rs:182-193 | what the input has as a column, computed or not, is read from its position |
| ExecutionLaws.Scanned | src/executor/table_scan.rs:20-54 | a scan returns the listed columns of every row of the table |
| ExecutionLaws.Filtered | src/executor/filter.rs:13-23 | a filter keeps exactly the tuples beside which projecting its condition gives true |
| ExecutionLaws.BinaryOverScan | src/executor/evaluator.rs:151-154 | projecting and filtering by an operation on two columns of a table, said by the rows of the table and the operator alone |
| ExecutionLaws.UnaryOverScan | src/executor/evaluator.rs:155-157 | the same for a unary operation |
| ExecutionLaws.Aggregated | src/executor/hash_agg.rs:23-54 | an aggregation returns one tuple per key: the key, then each aggregate, of its own kind, over the bag of its arguments among the tuples with that key |
| ExecutionLaws.CrossJoined | src/executor/nested_loop_join.rs:36-57 | a join on nothing has each left tuple before each right tuple as often as both are there |
| ExecutionLaws.InnerJoined | src/executor/nested_loop_join.rs:44-52 | an inner join is the filtered cross product |
| ExecutionLaws.OuterJoined | src/executor/hash_join.rs:61-98 | a left, right or full outer join adds the tuples of the left, the right or both sides that have no partner in the inner join, padded with nulls |
| ExecutionLaws.SemiJoined | src/executor/hash_join.rs:115-138 | a semi join keeps the left tuples with a partner in the inner join, an anti join those without |
| JoinLaws.PushLeft | src/planner/rules/plan.rs:79-88 | moving a left-only conjunct below a join loses exactly what the rejected left rows contribute alone |
| JoinLaws.PushRight | src/planner/rules/plan.rs:89-98 | moving a right-only conjunct below a join loses exactly what the rejected right rows contribute alone |
| JoinLaws.FilterInner | src/planner/rules/plan.rs:61-64 | a filter above an inner join is a conjunct of its condition |
| JoinLaws.SwapInner | src/planner/rules/plan.rs:133-137 | an inner join does not depend on which input is left |
| JoinLaws.RotateInner | src/planner/rules/plan.rs:119-122 | two nested inner joins associate when the inner condition looks at its own inputs only |
| Pruning.FilterThroughProj | src/planner/rules/plan.rs:51-55 | on consistent rows, a filter that can be computed above a projection commutes with it |
| Pruning.ProjThroughProj | src/planner/rules/plan.rs:362-366 | on consistent rows, a projection skips the projection below it |
| Pruning.FilterThroughAgg | src/planner/rules/plan.rs:56-60 | on consistent rows, a filter on the keys of an aggregation commutes with it |
| Pruning.PruneBelowFilter | src/planner/rules/plan.rs:377-380 | dropping unused columns below a filter changes nothing of what is meant above the projection |
| Pruning.PruneBelowProj | src/planner/rules/plan.rs:369-372 | dropping unused columns below a projection changes nothing of what is meant |
| Pruning.PruneBelowAgg | src/planner/rules/plan.rs:385-388 | dropping columns used neither by keys nor by aggregates changes nothing of what is meant |
| Pruning.PruneBelowJoin | src/planner/rules/plan.rs:389-392 | dropping unused columns on both sides of a join of any type changes nothing of what is meant above the projection |
| PlanRules.SameRuns | src/executor/mod.rs:182-193 | a rewrite that keeps a plan well formed and unambiguous, its schema and the rows it means gives the same tuples without a panic |
| PlanRules.FilterTrueSound | src/planner/rules/plan.rs:25 | a filter on true is its input |
| PlanRules.FilterFalseSound | src/planner/rules/plan.rs:26 | a filter on false is empty, with the same columns |
| PlanRules.OrderNullSound | src/planner/rules/plan.rs:24 | ordering by nothing is its input |
| PlanRules.FilterMergeSound | src/planner/rules/plan.rs:36-43 | merging and splitting stacked filters keeps the rows, and splitting keeps the plan well formed if and only if no part is only a column |
| PlanRules.FilterOrderSound | src/planner/rules/plan.rs:48 | a filter commutes with an order |
| PlanRules.FilterProjSound | src/planner/rules/plan.rs:51-55 | pushing a filter through a projection keeps the rows when the child produces the condition's columns |
| PlanRules.FilterHashAggRows | src/planner/rules/plan.rs:56-60 | pushing a filter through an aggregation keeps the rows meant and the tuples returned, and the result is well formed if and only if the condition uses no computed key |
| PlanRules.FilterInnerJoinSound | src/planner/rules/plan.rs:61-64 | a filter above an inner join becomes part of its condition |
| PlanRules.FilterSemiJoinSound | src/planner/rules/plan.rs:65-68 | a filter above a semi join becomes part of its condition |
| PlanRules.FilterLeftJoinSound | src/planner/rules/plan.rs:69-78 | a filter on left columns goes below an anti and a left outer join |
| PlanRules.CondLeftSoundIff | src/planner/rules/plan.rs:79-88 | pushing a left-only conjunct below a join keeps the rows if and only if the join type is inner, semi or right outer, or the conjunct holds on every left row, for the rows meant and for the tuples returned; the result is well formed if and only if no part is only a column |
| PlanRules.CondRightSoundIff | src/planner/rules/plan.rs:89-98 | pushing a right-only conjunct below a join keeps the rows if and only if the join type does not keep unmatched right rows, or the conjunct holds on every right row, with the same proviso |
| PlanRules.JoinRotateSound | src/planner/rules/plan.rs:119-122 | right rotation of inner joins keeps the rows |
| PlanRules.JoinRotate1Rows | src/planner/rules/plan.rs:123-132 | right rotation below a projection, which drops the inner projection unchecked, keeps the rows meant and the tuples returned whenever the sides stay separate, also where a dropped column is used above; the result is well formed if and only if none is |
| PlanRules.JoinRotate1SoundIff | src/planner/rules/plan.rs:123-132 | so it gives an equivalent plan if and only if the join without the projection has separate sides and provides every column used above |
| PlanRules.JoinSwapSound | src/planner/rules/plan.rs:133-137 | swapping an inner join below a projection keeps the rows |
| PlanRules.PruneFilterSound | src/planner/rules/plan.rs:377-380 | column pruning below a filter keeps the rows |
| PlanRules.PruneOrderSound | src/planner/rules/plan.rs:369-372 | column pruning below an order keeps the rows |
| PlanRules.PruneAggSound | src/planner/rules/plan.rs:385-388 | column pruning below an aggregation keeps the rows |
| PlanRules.PruneJoinSound | src/planner/rules/plan.rs:389-392 | column pruning below a join of any type keeps the rows |
| PlanRules.ProjProjSound | src/planner/rules/plan.rs:362-366 | collapsing two projections keeps the rows, also where an expression is then read instead of computed |
| PlanRules.IdenticalProjSound | src/planner/rules/plan.rs:358-361 | removing a projection that lists its input's schema keeps the rows |
| PlanRules.RootSound | src/planner/rules/plan.rs:20-137 | every modelled rule, applied at the root of a well-formed and unambiguous plan, keeps it so, and keeps the schema in its order and, in every database, the bag of rows meant |
| PlanRules.RewriteSound | src/planner/rules/plan.rs:20-137 | one application of a rule at any depth keeps them |
| PlanRules.RewritesSound | src/planner/rules/plan.rs:20-137 | any number of applications at any depths keeps them, and the executor returns the same tuples for every plan on the way, without a panic |
| RuleInstances.FiltersMove | src/planner/rules/plan.rs:24-60 | the filter rules apply at every plan of their left-hand shape, under exactly the conditions of the source and those that keep the plan well formed |
| RuleInstances.FiltersJoin | src/planner/rules/plan.rs:61-78 | so do the rules that move a filter into or below a join |
| RuleInstances.ConditionsMove | src/planner/rules/plan.rs:79-98 | so do the rules that move a part of a join condition, for the join types where that keeps the rows |
| RuleInstances.JoinsMove | src/planner/rules/plan.rs:119-137 | so do the rotations and the swap of inner joins |
| RuleInstances.ProjectionsGo | src/planner/rules/plan.rs:358-366 | so do the rules that remove a projection |
| RuleInstances.PruningApplies | src/planner/rules/plan.rs:369-392 | under a projection every filter, order and join can be pruned, and so can every aggregation |
| RuleInstances.PartsRewrite | src/planner/rules/plan.rs:20-137 | a rewrite of any input of an operator is a rewrite of the whole plan |
| PlanFailures.PushedFilterLosesColumn | src/planner/rules/plan.rs:56-78 | a filter on a computed key goes below the aggregation and still runs, then, as it uses no visible column, to the wrong side of a left outer join, where the executor panics on a missing column |
| PlanFailures.RotationLosesColumn | src/planner/rules/plan.rs:123-132 | a plan whose rotation still runs and returns the same tuples in every database, but hides the column it uses: column pruning then leaves nothing and the executor panics |
| PlanFailures.AntiJoinLosesRow | src/planner/rules/plan.rs:84-88 | an anti join and a database on which pushing the condition to the left loses a row |
| PlanFailures.RightJoinLosesRow | src/planner/rules/plan.rs:94-98 | a right outer join and a database on which pushing the condition to the right loses a row |
| PlanFailures.AliasLosesColumn | src/binder/table.rs:65-74 | a derived table with column aliases is used through its own expressions, which runs; column pruning does not see that use, and the executor panics |
| PlanFailures.SplitLosesColumn | src/planner/rules/plan.rs:36-43 | splitting a filter off that is only a column: the plan ran, and now panics |
| PlanFailures.ReferenceLosesColumn | src/planner/rules/plan.rs:377-380 | a condition that is only a reference runs, and panics after column pruning |
| LookupFailures.PruningSafeIff | src/executor/mod.rs:182-193 | for every expression computed on the padded side of a left outer join beside its columns: column pruning below a filter on it keeps the rows returned in every database if and only if the expression is null on nulls whatever its operators do, and if and only if the plan is unambiguous |
| LookupFailures.PruningChangesRows | src/executor/mod.rs:182-193 | otherwise the database: no row before, one after |
| LookupFailures.SkippingSafeIff | src/planner/rules/plan.rs:362-366 | the same equivalence for collapsing two projections |
| LookupFailures.SkippingChangesRows | src/planner/rules/plan.rs:362-366 | otherwise the database: one row of null after, none before |
| LookupFailures.MergingChangesRows | src/planner/rules/plan.rs:36-43 | for every operator expression, a database on which merging two filters changes the rows returned |
| Varints.EncodeInto | src/storage/secondary/block/rle_block_builder.rs:14-27 | the loop appends the base-128 groups of the value, low group first |
| Varints.Decode | src/storage/secondary/block/rle_block_builder.rs:30-48 | the loop decodes every varint of the buffer; an empty buffer is an error |
| Varints.EncodedSize | src/storage/secondary/block/rle_block_builder.rs:14-27 | a 32-bit value takes one to five bytes |
| Varints.SliceRoundTrip | src/storage/secondary/block/rle_block_builder.rs:51-84 | whatever follows, a 32-bit value decodes to itself exactly when it is below 0xF000_0000, and to an error otherwise |
| Varints.ListRoundTripIff | src/storage/secondary/block/rle_block_builder.rs:30-48 | a list of 32-bit values decodes back if and only if all are below 0xF000_0000 |
| Varints.FirstUnreadable | src/storage/secondary/block/rle_block_builder.rs:51-84 | 0xF000_0000 is written but cannot be read, and the value before it can |
| Varints.PrefixFree | src/storage/secondary/block/rle_block_builder.rs:14-27 | no encoding is a prefix of another |
| Formats.VarintFormat | src/storage/secondary/block/rle_block_builder.rs:14-27 | a varint holds its value in groups of seven bits, lowest first, and every byte but the last has the high bit set |
| Formats.ByteOfFlags | src/storage/secondary/block/nullable_block_builder.rs:71-76 | eight flags make a byte with the first flag lowest |
| Formats.BlobFormat | src/storage/secondary/block/blob_block_builder.rs:100-107 | a blob block begins with the end of every value as four bytes, lowest first, and its data follows |
| Formats.NullableFormat | src/storage/secondary/block/nullable_block_builder.rs:71-76 | a nullable block is the values, the bitmap and the length of the bitmap as four bytes, lowest first |
| Formats.RleFormat | src/storage/secondary/block/rle_block_builder.rs:161-181 | a run-length block is the number of runs and the size of the counts, four bytes each, lowest first, then the counts and the values |
| Formats.DictFormat | src/storage/secondary/block/dict_block_builder.rs:98-106 | a dictionary block is the size of the codes as eight bytes and the number of values as four, highest first, then the codes and the values |
| Formats.I32Format | src/storage/secondary/block/dict_block_builder.rs:61-74 | codes are stored in two's complement, lowest byte first |
| Formats.ImageFormat | src/storage/secondary/block.rs:162-169 | behind its data a block has its kind, the kind of checksum and the checksum of data and kind, highest byte first |
| Formats.ReadsImagesOnly | src/storage/secondary/column.rs:196-213 | reading at an entry returns a block if and only if the bytes there are the image of it with the right checksum |
| Bytes.PackedBitAt | src/storage/secondary/block/nullable_block_builder.rs:71-76 | a packed bitmap, least significant bit first, gives every bit back |
| Blocks.BlobPieceBack | src/storage/secondary/block/blob_block_iterator.rs:49-78 | with less than 4 GiB of data, the offset table leads to exactly the bytes of each value |
| Blocks.FixedPieceBack | src/storage/secondary/block/primitive_block_iterator.rs:42-66 | a fixed-width value is where its row number says |
| Blocks.SplitNullable | src/storage/secondary/block/nullable_block_iterator.rs:11-17 | the inner block and the bitmap are found again behind the trailing length |
| Blocks.BlockRoundTrip | src/storage/secondary/block/nullable_block_iterator.rs:11-68 | a plain or nullable block holds exactly the items it was built from, nulls included |
| BlockIO.ArrayBuilder.Push | src/array/primitive_array.rs:156-159 | appends one item: a default slot with a cleared bit for a null |
| BlockIO.ArrayBuilder.ReplaceBitmap | src/array/primitive_array.rs:140-142 | replaces every validity bit |
| BlockIO.BlockBuilder.Append | src/storage/secondary/block/nullable_block_builder.rs:41-52 | appends an item to the values, the offset table and the bitmap |
| BlockIO.BlockBuilder.Finish | src/storage/secondary/block/nullable_block_builder.rs:71-76 | writes the block of the appended items |
| BlockIO.BlockReader.NextBatchNonNull | src/storage/secondary/block/primitive_block_iterator.rs:37-69 | pushes the raw values of the next rows, as many as asked for and left |
| BlockIO.BlockReader.NextBatch | src/storage/secondary/block/nullable_block_iterator.rs:52-68 | reads the next rows and replaces the builder's bitmap by theirs |
| BlockIO.BlockReader.Skip | src/storage/secondary/block/nullable_block_iterator.rs:70-73 | moves both positions on |
| BlockIO.BatchSizeIs | src/storage/secondary/block/primitive_block_iterator.rs:37-69 | a batch has as many rows as are left, or as many as are asked for if that is less |
| BlockIO.ReadInto | src/storage/secondary/block/nullable_block_iterator.rs:57-65 | a batch lands behind the builder's content if and only if the block has no bitmap or the builder was empty |
| BlockIO.ReadTwice | src/storage/secondary/block/nullable_block_iterator.rs:57-65 | reading any nullable block row by row into one builder leaves two values and one validity bit |
| Runs.RunsExpand | src/storage/secondary/block/rle_block_builder.rs:128-144 | expanding the runs of a list gives the list back |
| Runs.RunsTight | src/storage/secondary/block/rle_block_builder.rs:128-144 | every run is non-empty and fits 32 bits, and only a full run is followed by its own value |
| Runs.LongRunIff | src/storage/secondary/block/rle_block_builder.rs:51-84 | some run is too long for the varint decoder if and only if one item repeats 0xF000_0000 times in a row |
| Rle.RleBuilder.Append | src/storage/secondary/block/rle_block_builder.rs:128-144 | the counts, the open count and the inner block are the runs of the items appended so far |
| Rle.RleBuilder.Finish | src/storage/secondary/block/rle_block_builder.rs:161-181 | writes the run-length block of the items, nothing for no items |
| Rle.RleReader.constructor | src/storage/secondary/block/rle_block_iterator.rs:60-79 | a new cursor stands before the first row; its row count is the sum of the counts |
| Rle.RleReader.RemainingItems | src/storage/secondary/block/rle_block_iterator.rs:182-184 | the number of remaining items is exact |
| Rle.RleReader.NextElement | src/storage/secondary/block/rle_block_iterator.rs:85-91 | fetches the next run's value from the inner block, or nothing at its end |
| Rle.RleReader.NextBatch | src/storage/secondary/block/rle_block_iterator.rs:99-151 | returns exactly the next rows of the expanded runs, as many as asked for and left |
| Rle.RleReader.SkipRuns | src/storage/secondary/block/rle_block_iterator.rs:153-173 | moves the row position over whole runs and into one, stopping at the end |
| Rle.RleReader.Skip | src/storage/secondary/block/rle_block_iterator.rs:153-180 | moves on by that many rows, before or after the first read, with the inner cursor in step |
| RleRoundTrip.RlePartsBack | src/storage/secondary/block/rle_block_iterator.rs:10-18 | the run count, the encoded counts and the inner block are found again |
| RleRoundTrip.CountsBack | src/storage/secondary/block/rle_block_iterator.rs:60-66 | the counts decode if and only if no item repeats too often in a row |
| RleRoundTrip.Open | src/storage/secondary/block/rle_block_iterator.rs:60-79 | a built block opens on exactly its items, and fails exactly for no items or a run that is too long |
| RleRoundTrip.DoAll | src/storage/secondary/block/rle_block_iterator.rs:99-185 | any legal series of batches and skips returns the matching slices of the rows |
| RleRoundTrip.RoundTrip | src/storage/secondary/block/rle_block_iterator.rs:60-185 | from items to bytes and back: every legal series of batches and skips returns exactly the matching slices of the input, unless the input is empty or has a run that is too long |
| Dictionaries.NumberedSnoc | src/storage/secondary/block/dict_block_builder.rs:61-74 | a new value takes the next code and the map stays a bijection onto consecutive codes above the null code |
| Dictionaries.CodesTellItemsApart | src/storage/secondary/block/dict_block_builder.rs:61-74 | two rows have the same code exactly when they hold the same item |
| Dictionaries.DictBuilder.CodeFor | src/storage/secondary/block/dict_block_builder.rs:64-71 | gives the code of a value, a new one exactly for a new value |
| Dictionaries.DictBuilder.Append | src/storage/secondary/block/dict_block_builder.rs:61-74 | the codes stand for the items appended so far; the data block holds each distinct value once, in order of appearance |
| Dictionaries.DictBuilder.Finish | src/storage/secondary/block/dict_block_builder.rs:98-106 | writes the dictionary block of the codes and values |
| Dictionaries.DictParts | src/storage/secondary/block/dict_block_iterator.rs:13-21 | the number of values, the codes and the value block are found again |
| Dictionaries.DictReader.NextBatch | src/storage/secondary/block/dict_block_iterator.rs:79-97 | returns exactly the next rows, codes looked up, the null code as null |
| Dictionaries.DictReader.Skip | src/storage/secondary/block/dict_block_iterator.rs:99-101 | moves on by that many rows |
| Dictionaries.DecodedBack | src/storage/secondary/block/dict_block_iterator.rs:83-95 | codes decode to the items they stand for |
| DictRoundTrip.LoadKeys | src/storage/secondary/block/dict_block_iterator.rs:55-61 | the reader's map is the inverse of the builder's |
| DictRoundTrip.OpenDict | src/storage/secondary/block/dict_block_iterator.rs:42-71 | a built dictionary block opens on exactly its items, and fails exactly when its codes cannot be opened |
| DictRoundTrip.DictRoundTrip | src/storage/secondary/block/dict_block_iterator.rs:13-105 | from items to bytes and back through codes, runs and the inner block, for every legal series of batches and skips |
| BlockIndexes.BlockIndexBuilder.AddRows | src/storage/secondary/block/block_index_builder.rs:88-90 | counts the rows of the block being built |
| BlockIndexes.BlockIndexBuilder.FinishBlock | src/storage/secondary/block/block_index_builder.rs:39-85 | appends the block with its header and records where its bytes and rows are |
| BlockIndexes.EntriesTile | src/storage/secondary/block/block_index_builder.rs:47-59 | entries follow each other without gap or overlap, in rows and in bytes, from zero to the end of the column |
| BlockIndexes.OneBlockOnly | src/storage/secondary/index.rs:66-88 | no two blocks hold the same row |
| BlockIndexes.PartitionPoint | src/storage/secondary/index.rs:79-81 | binary search for the first entry beyond a row |
| BlockIndexes.BlockOfRow | src/storage/secondary/index.rs:66-88 | finds the block that holds a row, also among empty blocks |
| BlockIndexes.BlockReadBack | src/storage/secondary/column.rs:197-213 | cutting the column at an entry yields the block that was written there, and its checksum matches |
| Chunks.ChunkBuilder.PushRow | src/array/data_chunk_builder.rs:47-58 | collects a row and gives the chunk away exactly when it is full |
| Chunks.ChunkBuilder.Take | src/array/data_chunk_builder.rs:89-107 | gives away what was collected, nothing for no rows |
| Chunks.Output.Push | src/array/data_chunk_builder.rs:47-58 | the yielded chunks and the pending rows together grow by exactly the row |
| Chunks.Output.Close | src/array/data_chunk_builder.rs:89-107 | the chunks of an operator hold exactly the rows sent, all full but the last, which is not empty |
| JoinSpecs.PairsSwap | src/executor/hash_join.rs:56-80 | summing the pairs by left rows or by right rows is the same |
| JoinCounts.JoinCount | src/executor/hash_join.rs:56-98 | how often each pair of a left and a right part is in a join bag: as often as both rows are there if their keys are equal, and for outer joins as often as the kept row is there if the other part is null and no row there has its key |
| JoinCounts.JoinRowsAre | src/executor/hash_join.rs:56-98 | every row of a join bag has a left part |
| JoinSpecs.PushBehind | src/executor/hash_join.rs:64-69 | sends one right row joined to each of the left rows |
| HashJoins.BuildTable | src/executor/hash_join.rs:41-51 | the table holds exactly the left rows, by key, none marked, however they are chunked |
| HashJoins.ProbeRow | src/executor/hash_join.rs:61-78 | a right row sends its pairs with the left rows of its key, or itself with nulls where the join type keeps it, and marks its key |
| HashJoins.Probe | src/executor/hash_join.rs:56-80 | all right rows together send their contributions and mark exactly their keys |
| HashJoins.PushUnmatched | src/executor/hash_join.rs:82-98 | the unmarked keys send exactly the left rows without a partner, in whatever order the table is walked |
| HashJoins.HashJoin | src/executor/hash_join.rs:34-103 | hash join returns the join bag of its inputs for all four join types and every chunking, in full chunks |
| Grouping.GroupByKeys | src/executor/merge_join.rs:86-108 | partitions the rows in order into groups of equal keys with different neighbours; for an empty key list there is no group |
| Grouping.SortedAscends | src/executor/merge_join.rs:86-108 | the groups of sorted rows have strictly ascending keys |
| Grouping.RowsOfKey | src/executor/merge_join.rs:28-42 | with distinct keys, the rows of a key are those of its group |
| MergeJoins.PushCross | src/executor/merge_join.rs:31-39 | sends every pair of a left and a right row of two groups |
| MergeJoins.MergeGroups | src/executor/merge_join.rs:28-75 | advancing both group streams in step sends the join bag of the grouped rows |
| MergeJoins.MergeJoin | src/executor/merge_join.rs:19-79 | over inputs sorted by a non-empty key list, merge join returns the join bag for all four join types and every chunking; over an empty key list it returns nothing |
| JoinAgreement.EmptyKeyJoin | src/executor/merge_join.rs:98-107 | with an empty key list the join bag is empty if and only if the join type has nothing to join |
| JoinAgreement.MergeAgreesWithHash | src/executor/merge_join.rs:19-108 | merge join and hash join return the same bag if and only if there are keys to join on or nothing to join |
| JoinAgreement.EmptyKeysDisagree | src/executor/merge_join.rs:98-107 | one row on each side and no key: the two joins differ |
| SqlJoins.SqlIffBalanced | src/executor/hash_join.rs:61-98 | the equi-join is the join SQL asks for if and only if the pairs of null keys make up for the rows that are no longer unmatched |
| SqlJoins.JoinIsSqlIff | src/executor/hash_join.rs:61-98 | for inner, left, right and full outer joins: the join is what SQL asks for if and only if every null key shared by both sides is harmless, which no key is for an inner join, one all-null row opposite a kept side makes it, and two all-null rows on each side make it for a full join |
| SqlJoins.NullKeysMeet | src/executor/hash_join.rs:61-98 | one row with a null key on each side, on which every join type differs from SQL |
| NestedLoops.CrossAt | src/executor/nested_loop_join.rs:74-82 | the pair of left row i and right row j is at i + left_count * j of the cross product |
| NestedLoops.Matcher.Flush | src/executor/nested_loop_join.rs:44-52 | a full chunk yields its true rows and appends its filter bits |
| NestedLoops.Matcher.Push | src/executor/nested_loop_join.rs:43-52 | collects one pair, flushing a full chunk |
| NestedLoops.Matcher.Rest | src/executor/nested_loop_join.rs:59-67 | flushes the pairs left over |
| NestedLoops.CrossAll | src/executor/nested_loop_join.rs:36-67 | the filter bits are those of the whole cross product, right rows outermost, across chunk boundaries |
| NestedLoops.Matched | src/executor/nested_loop_join.rs:74-82 | stepping through the bits by the left row count finds out whether a left row has a true pair |
| NestedLoops.PushUnmatched | src/executor/nested_loop_join.rs:70-94 | sends each left row without a true pair once, with nulls |
| NestedLoops.NestedLoopJoin | src/executor/nested_loop_join.rs:24-99 | returns the true rows of the cross product in order, then for a left outer join the unmatched left rows with nulls |
| NestedLoops.CrossBag | src/executor/nested_loop_join.rs:36-57 | as a bag the filtered cross product is the sum of the true pairs |
| NestedLoops.UnmatchedBag | src/executor/nested_loop_join.rs:70-94 | as a bag the unmatched rows are one null-extended row per left row without a partner |
| NestedLoops.NestedLoopIsJoin | src/executor/nested_loop_join.rs:24-99 | on a condition that says the keys are equal, the nested-loop join returns the join bag of the equi-joins |
| SemiJoins.SameSelectionIff | src/executor/hash_join.rs:129-137 | two selections of the same rows are the same list exactly when they agree on every row |
| SemiJoins.SelectedAre | src/executor/hash_join.rs:129-137 | a selection is the rows at exactly the positions where the predicate holds, in order |
| SemiJoins.SemiReads | src/executor/nested_loop_join.rs:111-148 | a semi join keeps a left row if and only if some right row makes the condition true, an anti join if and only if none does |
| SemiJoins.KeySemiReads | src/executor/hash_join.rs:115-138 | the same for equal keys |
| SemiJoins.KeyCondSemiReads | src/executor/hash_join.rs:153-195 | the same for equal keys and a further condition |
| SemiJoins.SemiRow | src/executor/nested_loop_join.rs:119-142 | keeps a left row exactly if some right row makes the condition true (or none, for anti), with the early exit |
| SemiJoins.NestedLoopSemi | src/executor/nested_loop_join.rs:111-148 | nested-loop semi and anti join keep exactly those left rows, in order |
| SemiJoins.HashSemi | src/executor/hash_join.rs:115-138 | hash semi and anti join keep exactly the left rows whose key some (or no) right row has, in order, one chunk per left chunk |
| SemiJoins.HashSemiCond | src/executor/hash_join.rs:153-195 | the variant with a further condition keeps exactly the left rows with a right row of their key on which the condition is true (or without one) |
| SemiJoins.SemiAgreeIff | src/executor/hash_join.rs:115-138 | on the SQL equality of keys the nested-loop and hash semi and anti joins select the same rows if and only if no left row with a null in its key finds that key on the right |
| SemiJoins.NullKeysSemi | src/executor/hash_join.rs:115-138 | one null on each side: the nested-loop semi join drops the left row and the hash semi join keeps it, and the anti joins do the reverse |
| SemiJoins.SemiCondAgreeIff | src/executor/hash_join.rs:153-195 | the same for a condition made of key equality and a rest |
| Bitmaps.BothBit | src/array/ops.rs:882-889 | bit by bit, a word-wise and is the conjunction |
| Bitmaps.EitherBit | src/array/ops.rs:891-895 | bit by bit, a word-wise or is the disjunction |
| Bitmaps.NotBothBit | src/array/ops.rs:897-904 | bit by bit, a word-wise and-not is the conjunction with the negation |
| Bitmaps.PackedBit | src/array/ops.rs:906-924 | a word packed from up to 64 flags gives every flag back |
| Bitmaps.And | src/array/ops.rs:882-889 | every live bit of the result is the conjunction, whatever the dead bits hold |
| Bitmaps.NotThenAnd | src/array/ops.rs:897-904 | every live bit of the result is the second operand's without the first's |
| Bitmaps.OrInto | src/array/ops.rs:891-895 | ors the words in place |
| Bitmaps.Or | src/array/ops.rs:891-895 | every live bit of the result is the disjunction |
| Bitmaps.FromBools | src/array/ops.rs:906-924 | packs flags 64 at a time and in a remainder word; every bit is its flag |
| Kernels.BinaryOp | src/array/ops.rs:791-802 | applies the function to all slots; a slot is valid when both are |
| Kernels.UnaryOp | src/array/ops.rs:804-813 | applies the function to all slots and keeps validity |
| Kernels.ClearNull | src/array/primitive_array.rs:201-211 | null slots become false and no item changes |
| Kernels.CompareKernel | src/array/ops.rs:97-146 | a comparison is null where an operand is, and its null slots hold false |
| Kernels.KleeneTables | src/array/ops.rs:170-205 | when three-valued and, or and not are true and when they are false |
| Kernels.MatchKernel | src/array/ops.rs:207-229 | a pattern match is null where its operand is, and its null slots hold false |
| Kernels.AndKernel | src/array/ops.rs:170-184 | three-valued conjunction slot by slot, null slots false |
| Kernels.OrKernel | src/array/ops.rs:186-198 | three-valued disjunction slot by slot, null slots false |
| Kernels.NotKernel | src/array/ops.rs:200-205 | three-valued negation slot by slot, null slots false |
| Kernels.IsNullKernel | src/executor/evaluator.rs:71-76 | is never null and says exactly which slots are |
| Kernels.RawTellsTrue | src/array/primitive_array.rs:186-189 | when null slots hold false, a raw slot is true exactly where the item is true |
| BoolExprs.Constant | src/executor/evaluator.rs:61-66 | a constant array holds the constant in every slot, default values under nulls |
| BoolExprs.CompareReads | src/array/ops.rs:97-146 | the six comparison operators in terms of equality and less-than |
| BoolExprs.CmpMeans | src/array/ops.rs:97-146 | a comparison of two columns or constants is true or false as their values compare, and null if one of them is |
| BoolExprs.ConnectivesMean | src/array/ops.rs:170-205 | when a conjunction, a disjunction, a negation, a null test and a pattern match are true and when they are false, by the meanings of their parts |
| BoolExprs.AnyEqualReads | src/executor/evaluator.rs:103-112 | an IN list is true if the value is an item, false if it is there and every item is there and different, and null otherwise |
| BoolExprs.EvalIn | src/executor/evaluator.rs:103-112 | an IN list is the three-valued disjunction of the equalities |
| BoolExprs.Eval | src/executor/evaluator.rs:58-163 | every boolean expression evaluates to its three-valued meaning in every slot, and null slots hold false |
| BoolExprs.Filter | src/executor/filter.rs:13-23 | a filter that reads raw slots only keeps, in order, the rows at exactly the positions where the condition is true |
| BoolExprs.CastKernel | src/array/ops.rs:418-419 | a cast to boolean is right on every item and leaves in the slots of nulls what comes out |
| BoolExprs.FilterCast | src/array/ops.rs:418-419 | a filter on a cast keeps exactly the rows on which it is true if and only if every null has a zero in its slot |
| BoolExprs.NullSumIsKept | src/array/ops.rs:418-419 | a null plus one, cast to boolean, is kept by a filter |
| Sorting.LeByAntisymmetric | src/executor/top_n.rs:67-76 | keys that are not above each other are the same, with descending columns too |
| Sorting.LeByTransitive | src/executor/top_n.rs:67-76 | the comparison with descending columns is transitive |
| Sorting.LeByTotal | src/executor/top_n.rs:67-76 | any two keys compare |
| Sorting.LeByReads | src/executor/order.rs:50-62 | one key comes before another if and only if they are the same or the first column that differs has the lower value, or the higher one if it descends |
| Sorting.OrderedKeysUnique | src/executor/order.rs:31-34 | two orderings of the same rows show the same sequence of keys |
| Sorting.Sort | src/executor/order.rs:31-34 | some ordering of the rows; nothing is promised about equal keys |
| TopN.Limit | src/executor/limit.rs:14-40 | returns exactly rows offset..offset+limit of the concatenated input, and its subtractions do not underflow, under every chunking |
| TopN.OrderBy | src/executor/order.rs:20-47 | returns the input rows so that of any two the earlier has the same key, or in the first key column that differs the lower value, or the higher one if the column descends; in full chunks |
| TopN.Pop | src/executor/top_n.rs:39-41 | takes one greatest row out of the heap |
| TopN.PushBounded | src/executor/top_n.rs:37-42 | pushing and popping when too large keeps the least rows seen so far |
| TopN.Heap | src/executor/top_n.rs:31-43 | after all chunks the heap holds the offset+limit least rows, or all of them |
| TopN.HeapKeys | src/executor/top_n.rs:48-52 | the sorted heap shows the keys at the front of any ordering of all rows |
| TopN.TopN | src/executor/top_n.rs:24-61 | returns the window of the sorted heap, whose rows come before all other rows of the input in that same order |
| TopN.TopNAgrees | src/executor/top_n.rs:24-61 | TopN and Order followed by Limit show the same sequence of keys, and TopN returns a sub-bag of the input, for every input and chunking |
| Aggregation.FoldIsRun | src/executor/hash_agg.rs:29-41 | the aggregate of a list is the last state when starting with the initial one and stepping over the rows in order |
| Aggregation.OfKeyAre | src/executor/hash_agg.rs:33-40 | the rows of a key are those at exactly the positions with that key, in order |
| Aggregation.AggCount | src/executor/hash_agg.rs:44-53 | in the result each key is there exactly once, before the results over its rows |
| Aggregation.HashAgg | src/executor/hash_agg.rs:23-54 | returns one row per key: the key and the aggregate of its rows in order, for any aggregate and any chunking |
| Aggregation.SortAgg | src/executor/sort_agg.rs:14-49 | returns one row per run of equal keys, in order |
| Aggregation.AggsAgreeIff | src/executor/sort_agg.rs:25-39 | one row per run is the same bag as one row per key if and only if no key has two runs |
| Aggregation.SortAggAgreesWithHashAgg | src/executor/sort_agg.rs:14-49 | sort and hash aggregation return the same bag if and only if equal keys are contiguous |
| DeleteVectors.NewVector | src/storage/secondary/delete_vector.rs:58-68 | sorting and deduplicating gives strictly ascending ids, the same set |
| DeleteVectors.PartitionPoint | src/storage/secondary/delete_vector.rs:80 | binary search for the first id not below the offset |
| DeleteVectors.ApplyTo | src/storage/secondary/delete_vector.rs:79-92 | the two-pointer pass clears exactly the bits of the deleted rows |
| DeleteVectors.ApplyAll | src/storage/secondary/rowset/rowset_iterator.rs:167-176 | all delete vectors together clear exactly the union of their ids |
| DeleteVectors.DeadOfBag | src/storage/secondary/rowset/rowset_iterator.rs:174-176 | their order and repetitions make no difference |
| DeleteVectors.SurvivorsAre | src/storage/secondary/delete_vector.rs:79-92 | the surviving rows are those at exactly the positions that are not deleted, in order |
| DeleteVectors.ReadBatch | src/storage/secondary/rowset/rowset_iterator.rs:162-189 | a batch shows exactly its surviving rows; a batch without survivors is skipped |
| DeleteVectors.Scan | src/storage/secondary/rowset/rowset_iterator.rs:94-104 | a scan in batches of any sizes shows exactly the surviving rows in order, at least one per chunk |
| Compaction.Select | src/storage/secondary/compactor.rs:42-54 | the selected rowsets fit the target size together and nothing passed over would still fit |
| Compaction.Copy | src/storage/secondary/compactor.rs:67-139 | the copied rows are a rearrangement of the selected rowsets' visible rows: sorted by the sort key if they were, their concatenation without one |
| Compaction.AfterIs | src/storage/secondary/compactor.rs:141-187 | committing the changeset replaces the selected rowsets by the new one, if it has rows, and leaves all delete vectors |
| Compaction.RowsAfter | src/storage/secondary/compactor.rs:141-187 | after it the table shows the rows of the other rowsets and the copied rows |
| Compaction.CompactionKeepsRowsIff | src/storage/secondary/compactor.rs:35-187 | a compaction committed on top of any later state leaves the table's visible rows unchanged if and only if no row of a selected rowset was deleted since its pin |
| Compaction.CompactTable | src/storage/secondary/compactor.rs:35-187 | a whole compaction from a pinned snapshot: which rowsets it takes, what it copies and in which order, and that its changes, committed on any later state that still has those rowsets, go through and leave the table's rows unchanged if and only if no row of theirs was deleted since the pin |
| Compaction.DeletedRowComesBack | src/storage/secondary/compactor.rs:211-219 | a run of an insert of two rows, a pin, a delete and a compaction: the table shows one row before it and both after it |
| MemoryTables.Transaction.Commit | src/storage/memory/transaction.rs:152-163 | applies both buffers to the table as it is at commit |
| MemoryTables.TxnIterator.NextBatch | src/storage/memory/iterator.rs:39-76 | returns the visible rows of the next chunk with ids that count across chunks |
| MemoryTables.TxnIterator.Drain | src/storage/memory/iterator.rs:39-76 | a whole scan returns exactly the visible rows of the snapshot with their ids |
| MemoryTables.ScanSeesStart | src/storage/memory/transaction.rs:41-63 | in every interleaving, a scan returns exactly the rows visible when its transaction started |
| MemoryTables.RowIdsAreStable | src/storage/memory/table.rs:37-45 | a row id names the same row in every later state, and a deleted row stays deleted |
| MemoryTables.BuffersAre | src/storage/memory/transaction.rs:142-150 | the buffers of an open transaction are the chunks and row ids of its own append and delete calls since it started |
| MemoryTables.TableIsCommits | src/storage/memory/transaction.rs:152-163 | in every reachable state the table is what the transactions that committed had appended since their start, in commit order, minus what they had deleted |
| MemoryTables.ShownIff | src/storage/memory/iterator.rs:48-52 | a row is shown exactly when it exists and is not deleted |
| MemoryTables.ShownInOrder | src/storage/memory/iterator.rs:48-52 | rows are shown in the order of their ids |

## Left out

- File, network and async I/O, channels, the block cache and the lock implementations: their effects are the steps of the state machines.
- JSON text of the manifest: a record is atomic, and one that is cut in the middle makes a file that does not parse, whatever comes after it.
- Views and indexes also take catalog ids; the catalog here holds tables only, without columns or schemas.
- Object identity of pooled rowsets: a held reference is a handle of a pin, and every holder keeps its pin.
- Rowset and column iterators below a batch of rows: a rowset is its list of rows, read in batches of any positive size.
- Columns inside chunks: chunks are lists of rows, and key, argument and condition expressions are functions of a row.
- Widths of in-memory counters: `usize` and epoch numbers do not wrap, and `offset + limit` does not overflow.
- Varints.DecodeSlice: a slice that ends inside a varint reads past its end in the source; here it is an error.
- Sorting.Sort: stands for the library's unstable sort, of which only the ordering and the bag of rows are used.
- TopN.Pop: stands for the library's binary heap, of which only taking out some greatest row is used.
- HashJoins.PushUnmatched: the hash table is walked in an arbitrary order, as the library leaves it open.
- Bitmaps.PackedBit: packing up to 64 flags into a word is one function; the SIMD mask and the remainder loop of the source both compute it.
- Rewrite rules on limit, topn, subqueries, apply, scans and indexes, and expression rules: they do not keep bags or nulls in general, or only select physical operators.
- E-graph saturation, the cost model and row estimates: rewriting is plain term rewriting.
- Aggregates one by one: states and steps are uninterpreted, so sums and counts over nulls are not distinguished.
- Engines.ReopensIff: a compaction finds its table still there when it commits, and appends that fail while the process goes on are covered by `Recovery.FailedAppendsLeakIff` instead.
- Executions.ExecIsRows: asks that table columns and aggregates come from one place each also where no expression uses them.
- LookupFailures.MergingChangesRows: covers operators only, since a merged filter on a constant or a conjunction that is not null on nulls need not change rows.
- Aggregates are bare only in the list of an aggregation, and references elsewhere, as the binder writes them; the projection over `DISTINCT ON`, which repeats them bare, is not well formed here.
- Recovery.DropReopensIff: says nothing about a drop with entries of a failed append in the file.
- Sorted scans of in-memory tables: no table is created with an ordered key, so the sorted branch is never taken.
- Floats, decimals, dates, strings and vectors as values: comparison needs a total order, given here for nulls, booleans and integers.
- SQL parsing, binding, the Postgres server, the command line and CSV import and export.
