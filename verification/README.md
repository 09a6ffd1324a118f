# Verification of the AEC integrations platform's data engines

A Dafny model of the five stateful engines of the platform, with their guarantees proved for
every input, every run or every reachable state:

1. **The D1 clone** (`apps/datatool/src/introspect.ts`, `copy.ts`, the copy route of `index.ts`):
   introspect two databases, order the tables parents first, clear the destination, reload it
   page by page, restore the self-references, all within one invocation's query budget.
2. **Agreement** (`packages/shared/src/agreement.ts`): votes folded per vendor identity, and the
   replay of the append-only history that dates a conflict.
3. **The integration prune** (`apps/datatool/src/prune-integrations.ts` and its route): guards, an
   atomic delete that re-checks racing claims, thread closure, the recount, and the rollback script.
4. **Two self-chaining queue jobs** (`apps/api/src/scheduled.ts`, with
   `traffic-classification-writer.ts` and `gsc-inspect-job.ts`): the traffic-classification
   backfill and the Google inspection run, with crashes, redelivery and loss as steps.
5. **The search-index writers** (`packages/shared/src/algolia.ts`, `apps/datatool/src/algolia-reindex.ts`).

Code that computes is written as functions; code that changes a database, a queue or an index is
written as classes and loops, each method proved against a specification function or a step
relation, and the guarantees are lemmas about those. What the environment decides (an overload, a
lost answer, a crash, an owner claiming a row, Google's answers, the clock) is a nondeterministic
choice or an arbitrary parameter; the classes count such failures, so that a method which breaks off
shows that something failed. The inspection chain is proved for every chunk function that spends
within its budget, and the real chunk is one (`InspectRun.Inspect`).

`dafny verify dfyconfig.toml` checks the whole project.

## Modules

| files | part |
|---|---|
| `Common`, `ReferenceGraph`, `Introspect`, `SchemaCompare` | table order and schema comparison |
| `Database`, `CopySpec`, `CopyClear`, `CopyLoad`, `CopyRestore` | statements as state transformers, and the three phases of a run on values |
| `CopySizing`, `CopyPages`, `CopyPacing`, `CopyEngine`, `CopyRoute` | sizing, streaming, paced writes, the imperative engine, the route |
| `Agreement`, `ConflictHistory` | votes and the dated conflict |
| `Prune`, `PruneCounts`, `PruneGuards`, `PruneRollback`, `SqlText`, `PruneRoute` | the delete batch, counts, gate, rollback, SQL literals, the route |
| `JobQueue`, `BackfillChain`, `BackfillWorker`, `InspectChunk`, `InspectChain`, `InspectRun`, `InspectWorker` | queue messages, the two chains as state machines, the consumers |
| `SearchIndex` | the two index writers |

## Assumptions stated in the contracts

- **Copy.** The source's primary keys are unique, its rows have all columns and it does not change
  during the run (`CopySpec.SourceReady`, `CopyPages.ByRowid`); that its references resolve is not
  assumed. The destination is foreign-key sound to begin with. Cross-table references form no cycle
  (`CopyRoute.AcyclicCatalog`); self-references are allowed. A foreign key names at least one
  column, and no primary-key column and no referenced column of a table is one of its self-reference
  columns (`CopySpec.SchemaReady`). Equal tables and columns mean equal keys
  (`CopyRoute.SameLineage`), because the comparison looks at nothing else.
- **Prune.** The database is foreign-key sound and its counts are right when the request arrives;
  a thread has a close time and a close reason together or neither, and two different companies, as
  the constraints at `apps/api/migrations/0100_claim_threads.sql:16-18` enforce; the rollback is
  proved where the two unique indexes on claims and attestations hold (`PruneRollback.UniqueKeys`). At
  any time after the plan, owners may claim unclaimed rows (`PruneGuards.Raced`).
- **Queues.** A page view never changes its day; at most the steps of `BackfillChain.Step` and
  `InspectChain.Step` happen.

## What does not hold, and exactly when it does

- **Rows with a rowid of 0 or less are not copied**: the keyset reader starts at `rowid > 0`. The
  stream is the whole table if and only if every rowid is positive (`CopyPages.StreamsWholeTable`).
- **A sound source may be impossible to copy**: where a row refers to one that is not copied, its INSERT
  or the UPDATE of its self-reference is rejected after the destination was cleared, and no run
  completes (`CopyRoute.HiddenParentIsRejected`, `CopyTwice`). What a run sends is accepted if and only
  if every reference of a row of positive rowid, as it is copied, resolves among the rows of positive
  rowid (`CopyRestore.CopyAccepted`, with `CopySpec.SelfContained` the condition). A run returns only
  then, and only otherwise is a statement rejected (`CopyEngine.CopyExecute`); every exit is sound
  either way.
- **A self-reference that no UPDATE can find stays NULL**: the row's table has no primary key, or its
  key holds a NULL, which SQLite allows and `WHERE "pk" = NULL` never matches. The destination equals
  the source if and only if no such row holds a self-reference (`CopyRestore.MirrorIsSource`).
- **A comma in a column name hides schema differences** from the joined comparison. For a list of at
  least two columns another list of as many columns goes unnoticed if and only if some name holds a
  comma (`SchemaCompare.CommaHidesDifference`); across lengths only a single ordinary name is never
  mistaken (`OneNameIsSafe`), and between lists of ordinary names every difference is reported
  (`JoinSeparates`).
- **Unreadable instants part the replay from today's agreement.** They agree when every row is
  `Faithful`, and each unfaithful row has a companion that makes them differ
  (`ConflictHistory.ReplayEndsToday`, `UnfaithfulRowsPart`).
- **The reported `deleted` footprint is read before the batch**: it is exact if and only if nobody
  claimed a requested row in between; its claims and attestations counts each have their own
  condition (`PruneRoute.DeletedCount`).
- **A rollback brings back the three content tables and nothing else.** Replayed after the recount it
  leaves the recounted numbers, so all counts are right if and only if every deleted row was retired,
  and never too high; detached threads stay detached, so the threads are back if and only if none was
  on a deleted claim (`PruneRollback.RollbackLeaves`).
- **An accepted backfill day may read rows that are gone.** The 370-day age limit
  (`apps/api/src/lib/traffic-classification-writer.ts:107-118`) counts the longer lookback, but the
  lookbacks are nested: the rows of the 14 days before a day are each matched against operator rows up
  to 30 days before them, 44 days in all. At every time the oldest accepted day reads too far
  (`BackfillChain.OldestDayReadsTooFar`); every read of a range is retained if and only if its first
  day is at most 356 days old (`WhollyRetained`).
- **An accepted backfill range need not stay accepted**: its remaining days can become too old, and
  only too old, and exactly when they pass the age limit (`BackfillChain.AcceptedSuffix`).
- **An inspection chain leaves the loop when a message is executed twice**, and only then: over every
  run of one opening message, with redeliveries, failed sends, drops and both kinds of throw, the
  committed chunks follow the loop if and only if no message is executed twice
  (`InspectChain.FollowsIffOnce`, and for a prefix of the loop in the same worlds `PrefixIffOnce`). One
  lost acknowledgement is enough for any message (`EveryMessageCanFork`), and attempts that failed
  without committing never do it (`RetriesFollowLoop`). A consumer could see it from the budget, which
  stops falling exactly then (`FollowsIffFalling`, `PrefixIffFalling`).
- **Not every inspected row leaves the worklist**, as the comment at
  `apps/api/src/lib/gsc-inspect-job.ts:27-28` has it: a row whose change time moved meanwhile stays,
  and it is closed or stamped if and only if the time did not move (`InspectChunk.AskedExactly`). An
  edit within the same millisecond as the one recorded is not noticed.
- **The audited `closed` count** equals the rows deleted if and only if no closing row moved between
  the re-read and the commit (`InspectChunk.ClosedCounts`).
- **Populating an index whose clear failed** gives the build if and only if every old id is in it
  (`SearchIndex.UnclearedIsCurrent`).

## Model

| member | source | states |
|---|---|---|
| ReferenceGraph.EmittedStandClear | apps/datatool/src/introspect.ts:98-108 | tables listed with all their parents before them have no reference cycle above them, at any distance |
| ReferenceGraph.StuckAreBelowCycle | apps/datatool/src/introspect.ts:98-109 | tables that each keep an unemitted parent all hang below a reference cycle |
| Introspect.ParentGraphEdge | apps/datatool/src/introspect.ts:90-96 | an edge of the sorted graph is exactly a reference to another, existing table; self-references and unknown parents are no edges |
| Introspect.CountEdges | apps/datatool/src/introspect.ts:86-96 | the in-degree and child lists mirror the parent graph, repeated references counted as often as they occur |
| Introspect.ReleaseChildren | apps/datatool/src/introspect.ts:101-107 | releasing one emitted table keeps every in-degree equal to the parents still waiting and queues exactly the tables that reach zero |
| Introspect.Kahn | apps/datatool/src/introspect.ts:98-108 | terminates; what it emits is free of duplicates and parents first, and every table it leaves hangs below a reference cycle |
| Introspect.AppendLeftovers | apps/datatool/src/introspect.ts:109-110 | the leftovers follow in name order and nothing is dropped |
| Common.BeforeMeans | apps/datatool/src/introspect.ts:109-110 | the name order: the smaller character at the first difference, a proper prefix first |
| Introspect.TopoSort | apps/datatool/src/introspect.ts:85-111 | a permutation of the tables: first, parents first, those with no cycle at or above them, then the rest in name order |
| Introspect.AcyclicOrder | apps/datatool/src/introspect.ts:82-111 | without a cross-table cycle nothing is left over and every parent stands before every child |
| SchemaCompare.CompareSchemas | apps/datatool/src/introspect.ts:125-141 | the messages are exactly the missing tables on either side and the tables whose joined columns differ, each once |
| SchemaCompare.JoinSeparates | apps/datatool/src/introspect.ts:136-138 | between lists of names without commas, none empty, every difference is reported, whatever the lengths |
| SchemaCompare.CommaHidesDifference | apps/datatool/src/introspect.ts:136-138 | for at least two columns, another list of as many columns goes unnoticed if and only if some name holds a comma |
| SchemaCompare.OneNameIsSafe | apps/datatool/src/introspect.ts:136-138 | some other list of any length goes unnoticed unless the list is a single ordinary name |
| Database.AcceptedStaysSound | apps/datatool/src/copy.ts:325-367 | an accepted list of statements leaves the database sound after every one of its statements |
| Database.Refuses | apps/datatool/src/copy.ts:325-340 | what the database refuses: unknown tables, unsound results, and a DELETE of a table some row refers to |
| CopySpec.PartialIsSound | apps/datatool/src/copy.ts:269-301 | a copy with rows and self-references still missing is foreign-key and key sound once parents are complete, if no copied row refers to one that is not copied |
| CopySpec.MirrorIsSound | apps/datatool/src/copy.ts:269-301 | what a finished run would leave is sound if and only if no copied row refers to one that is not copied |
| CopySpec.SoundIsSelfContained | apps/datatool/src/copy.ts:269-301 | rows whose references all resolve among themselves are such a source |
| CopyClear.ClearRuns | apps/datatool/src/copy.ts:325-340 | from any sound destination every statement of the clear is accepted and every table ends empty |
| CopyLoad.PageRuns | apps/datatool/src/copy.ts:269-283 | a page cut into inserts of any size loads exactly its rows with self-references nulled, and is accepted statement by statement if no copied row refers to one that is not copied |
| CopyRestore.SelfRefUpdatesConcat | apps/datatool/src/copy.ts:285-301 | updates collected page by page are the updates of the whole table |
| CopyRestore.AllUpdatesGenuine | apps/datatool/src/copy.ts:285-301 | every collected update puts one non-null self-reference of one source row back |
| CopyRestore.AllUpdatesComplete | apps/datatool/src/copy.ts:285-301 | no non-null self-reference of a table with a primary key is missed |
| CopyRestore.UpdatesRun | apps/datatool/src/copy.ts:362-366 | the second pass never undoes a restored cell, in any order of its updates, and is accepted if no copied row refers to one that is not copied |
| CopyRestore.UpdateMissesAll | apps/datatool/src/copy.ts:290-298 | an update whose key holds a NULL changes nothing |
| CopyRestore.UpdateLands | apps/datatool/src/copy.ts:362-366 | a cell whose update is in the list, under a full key, holds the source's value at the end |
| CopyRestore.RestoreGivesMirror | apps/datatool/src/copy.ts:342-367 | loaded destination plus second pass is exactly the mirror of the source, row by row, rows with a NULL in their key included |
| CopyRestore.CopyAccepted | apps/datatool/src/copy.ts:342-367 | everything a run sends after the clear is accepted if and only if no copied row refers to one that is not copied, and it leads to the mirror |
| CopyRestore.MirrorIsSource | apps/datatool/src/copy.ts:285-301 | the mirror is the source if and only if no row without a full primary key holds a self-reference |
| CopySizing.SizeTableWellSized | apps/datatool/src/copy.ts:143-162 | at least one row per statement and statement per batch, and a read page that is a whole number of batches |
| CopySizing.SizeTableWithinLimits | apps/datatool/src/copy.ts:143-162 | on the measured bytes of the table: bound parameters, statement bytes, batch bytes and page bytes, and the numbers of rows and statements, stay within their limits unless one row alone exceeds them |
| CopySizing.AverageIsMeasured | apps/datatool/src/copy.ts:144-145 | the row size is the least whole number of bytes, at least one, that times the rows covers the measured bytes |
| CopySizing.SizeTableIsMaximal | apps/datatool/src/copy.ts:146-162 | one more row per statement, one more statement per batch or one more batch per page breaks a limit |
| CopySizing.CeilDivSplit | apps/datatool/src/copy.ts:163-166 | cutting after whole batches costs no extra batch |
| CopySizing.CeilDivNested | apps/datatool/src/copy.ts:147-166 | batches of statements of rows are batches of rows |
| CopyPages.PageReader.Next | apps/datatool/src/copy.ts:209-233 | one turn of the reader: the rows after the last rowid, a stop on an empty or short page |
| CopyPages.StreamDrifting | apps/datatool/src/copy.ts:209-233 | under arbitrary changes between pages no rowid comes twice, every row was really read, a row present throughout is delivered, at one query per full page and one more |
| CopyPages.PageDelivers | apps/datatool/src/copy.ts:214-231 | on a fixed table each page is the next stretch, and the empty or short page is the end |
| CopyPages.StreamsWholeTable | apps/datatool/src/copy.ts:210-217 | the stream is the whole table if and only if every rowid is positive |
| CopyPacing.Destination.Batch | apps/datatool/src/copy.ts:303-316 | the environment's answers: applied, refused unapplied, rejected by a constraint, or failed with the batch applied or not |
| CopyPacing.PacedWrite | apps/datatool/src/copy.ts:86-101 | applied exactly once when it returns, at most six attempts, only overloads retried, with exactly 2, 5, 10, 10 and 13 s between them, and after success a rest as long as the write took, up to 10 s |
| CopyPacing.RunInBatches | apps/datatool/src/copy.ts:303-316 | the list is applied in order, in the fewest batches of that size; it returns only if the database accepts the whole list, is rejected only if it does not, and an abort leaves the state some accepted prefix of it gives |
| CopyPacing.StoppedIsSound | apps/datatool/src/copy.ts:303-316 | wherever a list stops the destination is sound |
| CopyEngine.BuildClear | apps/datatool/src/copy.ts:325-340 | the clear nulls every self-reference column, then deletes children first |
| CopyEngine.BuildInserts | apps/datatool/src/copy.ts:346-353 | the page's inserts, in order, as many as rows divided by rows per statement, rounded up |
| CopyEngine.BuildUpdates | apps/datatool/src/copy.ts:285-301 | the page's self-reference updates, none without a primary key |
| CopyEngine.CopyTable | apps/datatool/src/copy.ts:343-360 | one table streamed, loaded and counted: reads and insert batches cost exactly the estimate for the rows there are; a failed read or write leaves it sound |
| CopyEngine.Reload | apps/datatool/src/copy.ts:342-361 | all tables loaded in order, sound at every exit, at the summed cost plus one query per refusal |
| CopyEngine.CopyExecute | apps/datatool/src/copy.ts:318-368 | from any sound destination every exit is sound, a normal return is the mirror at the exact query count and happens only if no copied row refers to one that is not copied; it breaks off only for a statement rejected because one does, a failed query, or six refusals of one batch |
| CopyRoute.IntrospectDatabase | apps/datatool/src/introspect.ts:113-119 | the schema's order is ready for inserting whenever cross-table references are acyclic, and deletion is its reverse |
| CopyRoute.SizeTables | apps/datatool/src/copy.ts:244-256 | one plan per table in insert order, the estimate and both row totals their sums |
| CopyRoute.AnyOrder | apps/datatool/src/copy.ts:247-256 | the estimate of two databases does not depend on the order of the tables |
| CopyRoute.PlanCopy | apps/datatool/src/copy.ts:237-266 | writes nothing, spends six queries, refuses exactly on a seen schema difference, reporting each, and otherwise returns the estimate of the two databases and the budget of 900 |
| CopyRoute.EstimateParts | apps/datatool/src/copy.ts:163-176 | for positive rowids, reads and inserts cost exactly their share of the estimate |
| CopyRoute.EstimateCovers | apps/datatool/src/copy.ts:143-178 | the summed estimate covers reads, inserts and self-reference batches of the run |
| CopyRoute.ShareIsTight | apps/datatool/src/copy.ts:165-169 | a table without a NULL self-reference takes all of its share for the second pass, none without a primary key |
| CopyRoute.EstimateExact | apps/datatool/src/copy.ts:163-176 | without self-references and with positive rowids the estimate is exactly what the run reads and inserts |
| CopyRoute.CopyDatabase | apps/datatool/src/index.ts:145-230 | refuses, reporting exactly the differences, dry-runs, asks for confirmation or declines without a write, declines as too large exactly if the estimate exceeds 900; an executed run spends at most 900 queries plus one per refusal, and one that returns mirrors the source, reports its rows table by table and, without self-references, has spent exactly the estimate |
| CopyRoute.CopyTwice | apps/datatool/src/copy.ts:318-368 | whatever an aborted first run left behind, a completed second run ends in the mirror; if a copied row refers to one that is not copied, neither completes |
| CopyRoute.PlainSourceIsMirrored | apps/datatool/src/copy.ts:318-368 | with positive rowids and no self-reference in a row without a full key the mirror is the source row for row, and if its references resolve nothing is rejected |
| CopyRoute.HiddenParentIsRejected | apps/datatool/src/copy.ts:209-217 | a foreign-key sound source with a parent at rowid 0, none of whose runs is accepted |
| Agreement.TallyVoters | packages/shared/src/agreement.ts:82-91 | one stance per distinct identity, affirming exactly if all its live votes assert; AECi and retracted rows do not vote |
| Agreement.ComputeAgreement | packages/shared/src/agreement.ts:105-115 | the documented table over distinct identities, given without reference to the loop |
| Agreement.AgreementIgnoresTheRest | packages/shared/src/agreement.ts:82-115 | order, duplicates, AECi rows and retracted rows never change the state |
| Agreement.MergingNeverVerifies | packages/shared/src/agreement.ts:69-115 | merging or nulling identities by any map creates neither `confirmed` nor `conflict` |
| Agreement.IsClaimRefuted | packages/shared/src/agreement.ts:213-220 | somebody votes and everybody who votes denies |
| Agreement.IsClaimPubliclyBacked | packages/shared/src/agreement.ts:250-257 | a vendor-origin claim without a live AECi row is public exactly if its agreement is not `unverified` |
| Agreement.ComputeSyncHeadline | packages/shared/src/agreement.ts:309-326 | distinct objects, an object with a confirmed claim counted only as confirmed, both counts within the total, in any claim order |
| ConflictHistory.QuietInterval | packages/shared/src/agreement.ts:163-195 | between two recorded instants agreement is constant at every integer time |
| ConflictHistory.BeforeHistory | packages/shared/src/agreement.ts:163-195 | before the first instant there is no vote |
| ConflictHistory.ConflictSince | packages/shared/src/agreement.ts:163-195 | the least time from which agreement is `conflict` at every later integer time; none exactly when there is no such time |
| ConflictHistory.ReplayEndsToday | packages/shared/src/agreement.ts:105-195 | for faithful rows the replay finds a conflict exactly when today's agreement is `conflict` |
| ConflictHistory.UnfaithfulRowsPart | packages/shared/src/agreement.ts:130-195 | every unfaithful row has a readable companion with which replay and agreement differ |
| ConflictHistory.RewriteLeavesNoGap | packages/shared/src/agreement.ts:163-195 | a same-stance retract-and-insert at one time changes agreement at no time |
| ConflictHistory.RewriteHandsOver | packages/shared/src/agreement.ts:163-195 | a re-write hands the vote over at its time: the old row counts until then, the new one from then on, all others as before |
| ConflictHistory.RewriteKeepsAnswer | packages/shared/src/agreement.ts:163-195 | and so leaves the conflict's start where it was |
| Prune.BatchIsPruned | apps/datatool/src/prune-integrations.ts:645-663 | the seven ordered statements equal one simultaneous prune; the foreign-key actions find nothing left |
| Prune.NothingCascades | apps/datatool/src/prune-integrations.ts:653-663 | each delete finds the threads, attestations and claims below it already detached or gone |
| Prune.ForeignKeysFire | apps/api/src/db/schema.ts:2679 | what the foreign keys would do: attestations go with their claim, threads lose it |
| Prune.HeldRowsSurvive | apps/datatool/src/prune-integrations.ts:640-663 | whatever the state the batch meets, no vendor-held row, claim of one or attestation on one is deleted |
| Prune.ExactlyTheDoomedGo | apps/datatool/src/prune-integrations.ts:653-663 | exactly the requested unheld rows go, with exactly their claims and those claims' attestations |
| Prune.DeletableIsUnheld | apps/datatool/src/prune-integrations.ts:653-663 | what may go, read off the rows: requested, unclaimed and not of vendor origin, and the claims on such rows |
| Prune.BatchKeepsSound | apps/datatool/src/prune-integrations.ts:653-663 | no claim, attestation or thread dangles |
| Prune.ThreadsDetached | apps/datatool/src/prune-integrations.ts:525-580 | a thread on a deleted claim ends detached, snapshotted with the claim's anchor and data object and closed as of now, each unless it had that already; every other thread is untouched |
| Prune.AuditExactlyOnce | apps/datatool/src/prune-integrations.ts:525-580 | the audit log gains one closed row, one notice to the first company about the second and one to the second about the first, with the claim's data object, for each thread open on a claim of a deleted row, and nothing else |
| PruneCounts.OnlyOverstated | apps/datatool/src/prune-integrations.ts:653-684 | between delete and recount a count is never too low, and too high only on an affected product |
| PruneCounts.RecountMeans | apps/datatool/src/prune-integrations.ts:665-685 | the recount writes the live-edge count of exactly the affected products, in whatever order |
| PruneCounts.EdgesCounted | apps/datatool/src/prune-integrations.ts:667-677 | the count is the number of delivered edges: live integrations the product is an end of, and live pairs it is an end of or connects |
| PruneCounts.RecountRepairs | apps/datatool/src/prune-integrations.ts:665-685 | after it every product's count is its live-edge count again |
| PruneGuards.GateIsExact | apps/datatool/src/index.ts:370-445 | a prune goes ahead exactly if nothing is held, rows were found, it is confirmed, and the acknowledged guards are the tripped ones, with a reason if any |
| PruneGuards.GuardsTell | apps/datatool/src/prune-integrations.ts:401-440 | each guard is positive if and only if a row shows it: a claim no live copy carries, a row without a live copy, a row with a live copy of shorter description or notes |
| PruneGuards.RedundantIsUnguarded | apps/datatool/src/prune-integrations.ts:401-440 | rows that all have live copies, none poorer, with every claim carried, trip no guard |
| PruneGuards.BlockedTell | apps/datatool/src/prune-integrations.ts:443-452 | the blocked list is exactly the guards some row trips, in their fixed order |
| PruneGuards.ProceedingUnacknowledged | apps/datatool/src/index.ts:389-432 | going ahead without an acknowledgement means every guard reads zero |
| PruneGuards.UnguardedPruneConserves | apps/datatool/src/prune-integrations.ts:401-452 | with zero guards on the plan, live keys, claims per live key and each key's longest texts are conserved, even if owners claim rows in between |
| PruneRollback.BuildRollback | apps/datatool/src/prune-integrations.ts:267-293 | the script recreates exactly the requested rows, their claims and attestations, parents first and each table in id order |
| PruneRollback.IgnoredExactly | apps/datatool/src/prune-integrations.ts:226-231 | OR IGNORE skips exactly a taken id, a repeated claim and a repeated live attestation slot, and adds every other row as it is |
| PruneRollback.ReplayRestores | apps/datatool/src/prune-integrations.ts:226-293 | from any partly restored state the whole script runs and restores the tables |
| PruneRollback.PrunedIsRestorable | apps/datatool/src/prune-integrations.ts:640-663 | the delete leaves such a state whoever claimed rows since the plan |
| PruneRollback.RollbackUndoesPrune | apps/datatool/src/prune-integrations.ts:212-293 | replayed after delete and recount it restores integrations, claims and attestations exactly; every prefix is sound; resuming or repeating gives the same tables |
| PruneRollback.RollbackLeaves | apps/datatool/src/prune-integrations.ts:212-293 | a replay leaves threads, audit and products as the prune left them: all counts are right if and only if every deleted row was retired, the threads are back if and only if none was on a deleted claim |
| SqlText.ScanDoubled | apps/datatool/src/prune-integrations.ts:220-224 | reading a quoted string gives back the string, for every string |
| SqlText.ScannedWasQuoted | apps/datatool/src/prune-integrations.ts:220-224 | the lexer takes a text for a string exactly if it is the quoted form of one |
| SqlText.NoLeadingZero | apps/datatool/src/prune-integrations.ts:220-224 | integers are written without a leading zero |
| SqlText.LiteralReadsBack | apps/datatool/src/prune-integrations.ts:220-224 | every literal reads back as its value and leaves what follows |
| SqlText.ValuesReadBack | apps/datatool/src/prune-integrations.ts:226-231 | the VALUES list of an insert reads back as exactly the row's values, whatever quotes and commas they hold |
| PruneRoute.PruneExecute | apps/datatool/src/prune-integrations.ts:604-709 | refuses exactly on held rows; otherwise batch and recount run on whatever state the owners left, and the report pairs old and new counts |
| PruneRoute.DeletedNow | apps/datatool/src/prune-integrations.ts:653-663 | the batch deletes as many integrations, claims and attestations as its footprint on the state it meets |
| PruneRoute.DeletedCount | apps/datatool/src/prune-integrations.ts:622-630 | no reported count is ever too low; each is exact if and only if no row of its kind belongs to a row claimed in between, and the whole footprint if and only if none was claimed |
| PruneRoute.RouteOutcome | apps/datatool/src/prune-integrations.ts:604-709 | batch plus recount keep the database sound and the counts right, and conserve content when no guard was tripped |
| PruneRoute.PruneIntegrations | apps/datatool/src/index.ts:333-485 | a dry run and a declined request change nothing, and a request is declined exactly if it may not proceed, with the first reason the rows give; a claim before the second gate makes it throw untouched; otherwise exactly batch and recount have run, the footprint, the counts and the remaining rows are reported as read, soundness and counts hold, unacknowledged content is conserved, and the rollback returned restores the tables the batch met |
| PruneRoute.GateExplains | apps/datatool/src/index.ts:370-445 | which of the six refusals is given, decided by the rows, the acknowledgement, the reason and the confirmation |
| PruneRoute.RedundantMayProceed | apps/datatool/src/index.ts:370-445 | a confirmed request of unheld redundant copies needs no acknowledgement |
| JobQueue.SentArrivesUnchanged | apps/api/src/scheduled.ts:3432-3447 | a message sent with every field is normalised to itself, payloads included |
| JobQueue.PushedByHand | apps/api/src/scheduled.ts:3432-3447 | a message counts as manual and as enqueued when received, each where it does not say so itself; job and payloads are kept |
| BackfillChain.AcceptedEvidence | apps/api/src/lib/traffic-classification-writer.ts:107-149 | an accepted range has every day closed for 30 minutes and the rows of every 14-day window retained |
| BackfillChain.AcceptedExactly | apps/api/src/lib/traffic-classification-writer.ts:139-149 | a range is accepted if and only if its days are in order, the first at most 370 days old and the last over for 30 minutes; any other gets its own refusal |
| BackfillChain.OldestDayReadsTooFar | apps/api/src/lib/traffic-shadow.ts:195-210 | at every time the oldest accepted day has operator anchors in reach that retention may have deleted |
| BackfillChain.WhollyRetained | apps/api/src/lib/traffic-shadow.ts:195-210 | every read of every day of a range is retained if and only if its first day is at most 356 days old |
| BackfillChain.NightlyDayIsFixed | apps/api/src/lib/traffic-classification-writer.ts:102-105 | a message without a range means the last complete day before it was enqueued, however late it arrives, or before the run if that cannot be read; one with a range means the day it names |
| BackfillChain.AcceptedSuffix | apps/api/src/lib/traffic-classification-writer.ts:139-149 | later in an accepted chain a remaining day is refused only as too old, exactly when it is |
| BackfillChain.InsertAllExtends | apps/api/src/lib/traffic-classification-writer.ts:209-226 | inserting appends, repeats no key, changes no stored row and covers every key offered |
| BackfillChain.InsertAllConcat | apps/api/src/lib/traffic-classification-writer.ts:210-226 | chunk by chunk stores what one statement would |
| BackfillChain.CountsNewRows | apps/api/src/lib/traffic-classification-writer.ts:175-186 | the count after minus the count before is exactly the rows appended |
| BackfillChain.StoredCountIs | apps/api/src/lib/traffic-classification-writer.ts:175-186 | the count is of the rows of that day and that version |
| BackfillChain.RerunWritesNothing | apps/api/src/lib/traffic-classification-writer.ts:209-226 | a run over classified views writes nothing whatever verdicts it reached |
| BackfillChain.PayloadClassifies | apps/api/src/lib/traffic-classification-writer.ts:192-226 | a run that offers its whole payload leaves its day classified |
| BackfillChain.NewRowsAreJudged | apps/api/src/lib/traffic-classification-writer.ts:202-226 | rows stored before keep their verdict, rows a run adds carry the classifier's |
| BackfillChain.GoesOnByOneDay | apps/api/src/scheduled.ts:1166-1173 | a range that goes on sends one manual message of the same job for the next day, its last day none |
| BackfillChain.StepKeepsSound | apps/api/src/scheduled.ts:1125-1219 | every delivery, crash, redelivery, refusal, push and loss keeps the invariant |
| BackfillChain.RunsAreSound | apps/api/src/scheduled.ts:1112-1124 | over all runs with any number of chains and nightly messages: a queued day has every earlier day of its range classified, nothing out of range is written, no key is repeated and no row changed |
| BackfillChain.DrainedMeansClassified | apps/api/src/scheduled.ts:1112-1124 | once the queue is empty every day of every range is classified unless that range was unfinished when its last message was dropped or refused and nothing that goes on with it was pushed since; losses of other messages do not matter |
| BackfillChain.ChainFinishes | apps/api/src/scheduled.ts:1166-1175 | delivered without failures a chain takes one delivery a day, uses up its message and classifies its range |
| BackfillWorker.Worker.ClassifyDay | apps/api/src/lib/traffic-classification-writer.ts:192-238 | every view of the day is offered with the verdict the classifier reached on it; a failure leaves whole statements of 500 rows stored; a return stored all and reports the rows seen and the rows new; only a failure stops it |
| BackfillWorker.Worker.RunTrafficClassify | apps/api/src/scheduled.ts:1125-1219 | refusal without a write, crash with a prefix stored and nothing sent, or the day stored and the next day sent while the range goes on |
| BackfillWorker.Worker.Consume | apps/api/src/scheduled.ts:3463-3495 | a delivery is a step of the chain: throws are retried, all else is acknowledged, a lost acknowledgement redelivers, and only a failure leaves it unacknowledged; stored rows keep their verdict and new ones carry the classifier's |
| InspectChunk.OrderedIsSorted | apps/api/src/lib/gsc-inspect-job.ts:198-204 | the worklist is every eligible row, never inspected first, then oldest inspection, tier, id |
| InspectChunk.SelectedIsHead | apps/api/src/lib/gsc-inspect-job.ts:176-206 | a chunk takes distinct due rows, as many as there are up to 100 and the budget, in the stated order; one it leaves comes after all it took |
| InspectChunk.ChunkSpends | apps/api/src/lib/gsc-inspect-job.ts:303-316 | a chunk inspects at most 100 rows and the budget left; the next budget is what remains, only after a full unhalted chunk |
| InspectChunk.ChunkReports | apps/api/src/lib/gsc-inspect-job.ts:162-316 | how many rows it asked, closes, tags and failed on, and why it stopped; it goes on, with the budget less 100, exactly after a full chunk nothing refused with budget left |
| InspectChunk.FailedAreUnanswered | apps/api/src/lib/gsc-inspect-job.ts:221-230 | the skip list gains exactly the rows asked about without an answer |
| InspectChunk.EditReopens | apps/api/src/lib/gsc-recrawl-queue.ts:85-120 | an edited page is changed now, untagged, due again, of no lower tier and queued when it was |
| InspectChunk.DeletedMeansCrawled | apps/api/src/lib/gsc-inspect-job.ts:221-262 | a row goes only if Google reports it indexed and crawled after the change time it has at commit |
| InspectChunk.EditsAreKept | apps/api/src/lib/gsc-inspect-job.ts:236-279 | a row whose change time moved while it was inspected is neither deleted nor tagged |
| InspectChunk.AskedExactly | apps/api/src/lib/gsc-inspect-job.ts:221-279 | a row is closed, or stamped with Google's reason, if and only if its change time is still the one read, and is otherwise as the edits left it; a failed row is only reported |
| InspectChunk.AskedLeaves | apps/api/src/lib/gsc-inspect-job.ts:27-34 | every unedited row asked about leaves the worklist: closed, stamped or reported |
| InspectChunk.OthersUntouched | apps/api/src/lib/gsc-inspect-job.ts:255-302 | a row the chunk did not ask about is as the edits left it |
| InspectChunk.ClosedCounts | apps/api/src/lib/gsc-inspect-job.ts:250-301 | the audited `closed` count never understates the deletes, and is exact if and only if no closing row moved before the commit |
| InspectChunk.LandedEditsMove | apps/api/src/lib/gsc-inspect-job.ts:180-206 | edits that landed before a chunk are as good as edits it finds on reading |
| InspectChain.LinkedIsPrefix | apps/api/src/scheduled.ts:2668-2681 | chunks that take up where the one before left off are exactly the prefixes of the loop's chunks, and all of them exactly if the last asks for no more |
| InspectChain.FollowsIffFalling | apps/api/src/scheduled.ts:2668-2703 | over every run of one opening message, with redeliveries, failed sends, drops and both kinds of throw, the committed chunks follow the loop if and only if the budget strictly falls |
| InspectChain.PrefixIffFalling | apps/api/src/scheduled.ts:2668-2703 | without throws the chunks are a prefix of the loop's in the same worlds if and only if the budget strictly falls |
| InspectChain.RedeliveryForks | apps/api/src/scheduled.ts:3463-3495 | a message executed twice always leaves the loop |
| InspectChain.FollowsIffOnce | apps/api/src/scheduled.ts:2668-2703 | over every run of one opening message, with redeliveries, failed sends, drops and both kinds of throw, the committed chunks follow the loop if and only if no message is executed twice |
| InspectChain.PrefixIffOnce | apps/api/src/scheduled.ts:2668-2703 | without throws the chunks are a prefix of the loop's in the same worlds if and only if no message is executed twice |
| InspectChain.EveryMessageCanFork | apps/api/src/scheduled.ts:3463-3495 | for every table and message one lost acknowledgement gives such a run |
| InspectChain.RetriesFollowLoop | apps/api/src/scheduled.ts:2668-2703 | attempts that did not commit and their retries follow the loop in the worlds that committed, with the edits landed by then |
| InspectChain.ChainedIsPrefix | apps/api/src/scheduled.ts:2668-2703 | with acknowledged deliveries, failed sends and drops, the chunks are a prefix of the loop's, with at most one message in flight |
| InspectChain.ChainedIsInline | apps/api/src/scheduled.ts:2668-2703 | with every send delivered the chain terminates: one delivery per chunk of the loop, drained exactly then, with the loop's chunks, table, totals and skip list |
| InspectChain.SummedAdds | apps/api/src/scheduled.ts:2676-2680 | totals are what the chunks report, added count by count |
| InspectChain.OpensOrGoesOn | apps/api/src/scheduled.ts:2650-2652 | a message without a payload opens a run of 1,500, one with a payload goes on with exactly that |
| InspectChain.SpendingIsBounded | apps/api/src/scheduled.ts:2668-2703 | over any run, pushes and drops included, inspections spent plus budget queued never exceed the initial budget plus the budgets pushed plus those of repeated attempts |
| InspectChain.UndisturbedRunsKeepBudget | apps/api/src/scheduled.ts:2650-2651 | runs opened without a payload, interleaved but undisturbed, together inspect at most 1,500 rows per opening |
| InspectRun.ChunksSpend | apps/api/src/lib/gsc-inspect-job.ts:303-316 | the real chunk is one the chain's results hold for: it spends within its budget and leaves what it did not spend |
| InspectRun.LoopEnds | apps/api/src/lib/gsc-inspect-job.ts:303-304 | a run ends with its budget used up, halted, not configured, or with every row due at its last chunk asked about but those that failed earlier; what it inspected and what is left make up the budget |
| InspectRun.NeverAsked | apps/api/src/lib/gsc-inspect-job.ts:180-193 | a row skipped, gone or freshly stamped is not asked about again in the run |
| InspectRun.AskedOnce | apps/api/src/lib/gsc-inspect-job.ts:27-34 | no row is asked about twice in a run, failing rows included, unless its page is edited or the run outlasts the recheck window |
| InspectWorker.Worker.RunChunk | apps/api/src/lib/gsc-inspect-job.ts:162-316 | an attempt commits the chunk, its answer possibly lost, or leaves only the edits that landed meanwhile |
| InspectWorker.Worker.RunGscInspect | apps/api/src/scheduled.ts:2642-2740 | unbound it runs all inline chunks with their summed totals; bound it runs one chunk and sends the rest, reporting a failed send as failed |
| InspectWorker.ReportedAs | apps/api/src/scheduled.ts:2706-2711 | failed, quota, skipped or ok, each exactly when |
| InspectWorker.Worker.Consume | apps/api/src/scheduled.ts:3463-3495 | a delivery of a queued message is a step of the chain; only a failure throws, loses the next message or leaves this one unacknowledged |
| SearchIndex.DistinctBuild | packages/shared/src/algolia.ts:339-353 | with distinct ids the built index holds exactly the records |
| SearchIndex.SetSizeTellsDuplicates | packages/shared/src/algolia.ts:339-342 | the set of ids is as large as the list exactly when no id repeats |
| SearchIndex.SavedOverlays | packages/shared/src/algolia.ts:350-354 | saving overlays the build on the old index and loses nothing |
| SearchIndex.UnclearedIsCurrent | apps/datatool/src/algolia-reindex.ts:425-448 | populating an uncleared index gives the build if and only if every old id is in it |
| SearchIndex.StaleIsRest | packages/shared/src/algolia.ts:356-363 | what the browse finds stale is exactly what the build no longer has |
| SearchIndex.Index.SyncDocs | packages/shared/src/algolia.ts:334-376 | a returning sync leaves exactly the build and counts its deletions; duplicates throw before any write and otherwise only a failed call throws; no page of both old index and build is ever absent |
| SearchIndex.Index.ReindexEntity | apps/datatool/src/algolia-reindex.ts:425-448 | `cleared` and `added` mean the last-wins build, each missed only for a failed call; otherwise what remains is whole chunks of 500; no error exactly when both hold |

## Left out

- HTTP, authentication, routing, the UI page, metrics, logs and e-mail: plumbing around the modelled calls.
- The reader's fallback when the query of a first page fails, for whatever reason (`apps/datatool/src/copy.ts:221-225`): it reads the whole table in one query, rowids of 0 or less included, and can cost a query more than the estimate. A failing read of a later page is modelled.
- Tables WITHOUT ROWID, generated columns, pragma parsing and the probes for columns a migration has not added yet: a migrated schema of rowid tables is assumed.
- D1's SQL engine: statements are state transformers, and unique indexes other than primary keys, NOT NULL and CHECK constraints are not checked on the copy's destination; a NOT NULL self-reference column would reject the nulling UPDATE and INSERT.
- Names are compared character by character; JavaScript sorts by UTF-16 code unit, which differs only outside the basic plane.
- Byte sizes and row counts are unbounded integers; JavaScript's double rounding above 2^53 is not modelled.
- SqlText.LiteralReadsBack: covers NULL, integers and strings; real numbers and blobs are not part of this model.
- Timestamps are integers or opaque strings; parsing them is `Readable` or not.
- Child tables of an integration other than claims, attestations and threads, and the vendor names and ids inside notices.
- A NULL `origin`: the column is NOT NULL, where the SQL clause and the row check agree.
- The order in which affected products are recounted (by slug in the code, by id here): the result does not depend on it.
- Conversation threads are modelled with the table present; without it the batch is the three deletes.
- What a verdict or a crawl status is: the classifier's verdict is an arbitrary function of the view, and of Google's status only indexed, crawl time and the resulting tag are kept.
- New pages queued, and rows an operator ticks off, while an inspection run is under way: edits of listed pages are modelled, new rows and removed rows are not.
- An environment override of the 400-day retention window, which the age limit does not read.
- The batch size of the queues (one message per batch), retry delays and limits: a message may be redelivered or dropped at any time.
- Cron jobs other than the two chains, the CLI shells, index settings and record builders: they would add only easy members.
