# Mnemoir provenance core: a verified model

Mnemoir keeps an agent's memory with its provenance: Markdown memory files of profiles, evidence
and event rows in SQLite, curated memories, promoted memory models, and offline benchmarks. This
project models the parts whose correctness spans many functions and states what they keep over
every input, every run and every crash. `dafny verify dfyconfig.toml` checks all of it.

## What is modelled

- **Crash-recoverable writeback** (`live_overflow.py`). `Writeback.dfy` is a step machine over the
  durable state: target file, journal rows, backup, pending and committed spool, evidence rows,
  authorizations. One step is one durable effect or one look at shared state. Any number of trims,
  rollbacks and reconciliations interleave; each may be killed, or may raise, between any two
  steps, a private write may be torn, and the target may be edited from outside at any time.
  `WritebackSafety.dfy` proves the invariant of all runs, `WritebackTheorems.dfy` what follows for
  callers, `WritebackRecovery.dfy` the recovery equivalence, `WritebackDuplicates.dfy` the law of
  trims whose evidence one transaction cannot hold, `WritebackRuns.dfy`, `WritebackStops.dfy` and
  `WritebackMends.dfy` what calls do that nothing disturbs (those that go through, those that stop,
  and reconciliations), `WritebackRetrims.dfy` what happens to evidence that is rolled back and
  trimmed again, and `WritebackScenarios.dfy` runs from an initial state that reach all of this.
  `WritebackStore.dfy` has the calls themselves, as methods that update the tables and files of an
  object statement by statement under a fault hook, and proves that each call is a run of the step
  machine (`WritebackMoves.dfy` has the single moves).
- **The trim** under it: `Text.dfy` (white space, strip, lower), `Blocks.dfy` (splitting and
  joining), `Trim.dfy` (pressure thresholds, protection, the in-place loop).
- **Governed state machines.** `Ledger.dfy`, `LedgerSession.dfy` and `LedgerStore.dfy`: improvement
  proposals, attached experiments and the promotion ledger, with the foreign keys of the schema,
  over a connection whose transaction stays open after an error. `Curation.dfy` and
  `CurationStore.dfy`: proposals, reviews, memory versions, over a connection whose transaction
  stays open after an error. `Autonomy.dfy` and `AutonomyStore.dfy`: bounded ticks, their jobs and
  council records, with crashes at the commits inside `create_record`. In each group the first files
  have the calls as functions on tables and the laws of all runs; the last has them as methods
  that update fields, each proved to have exactly that effect.
- **Experiments** (`Experiments.dfy`): case metrics, adjustments, the safety gate, averages.
- **Ranking and streaming** (`benchmark.py`): `Json.dfy` (decoding, against the grammar
  of sections 2 to 7 of RFC 8259) and `JsonStream.dfy` (the chunked array reader), `Ranking.dfy` (nDCG,
  average precision, precision ceiling), `Fusion.dfy` (reciprocal rank fusion), `RoundRobin.dfy`
  (row selection).
- **Context and segmentation**: `Packer.dfy` (budgeted packing of cited context), `Segments.dfy`
  (line blocks of a text).
- **Failure clusters** (`Clusters.dfy`): the table that must agree with the event log.

## What the proofs found

The model follows the code. Where the code does less than its documentation or its names promise,
the exact condition is proved:

- A trim that removes equal blocks is not completed by its own call, nor by the first
  reconciliation: the unique key (source, content hash, time) of the event rows refuses the second
  row, and the foreign key of its evidence item then fails the transaction. `reconcile_writeback`
  does not roll that transaction back. If whoever owns the connection commits it, or reconciles
  again, each reconciliation in a new second puts the blocks up to the next repetition on record,
  and k equal blocks need k of them (`WritebackDuplicates.ReconciliationsNeeded`); if the
  connection is rolled back or closed each time, the trim is never completed
  (`WritebackDuplicates.NeverCompleted`). Two equal entries are a concrete case
  (`WritebackScenarios.EqualEntriesNeedTwo`).
- An exception between the replacement and the mark after it leaves a rollback in
  `failed_before_mutation` although it has replaced the file (`WritebackTheorems.RollbackMisreport`,
  reached in `WritebackScenarios.MisreportIsReached`).
- The last two marks of a rollback are two commits. A crash between them leaves the original
  operation available for another rollback (`WritebackTheorems.CrashBetweenMarks`, `WritebackScenarios.HalfClosedIsReached`).
- The id of an evidence row does not depend on the operation. If a file is trimmed, rolled back and
  trimmed again, the second trim is closed with its evidence committed, but the rows on record are
  the tombstones of the first one, and no standing evidence holds what was cut out
  (`WritebackRetrims.RetrimStaysBuried`, `WritebackScenarios.RetrimIsReached`). After any trim the
  row of a removed block stands exactly when it is new or stood before (`WritebackRetrims.StandsExactly`).
- A trim that does not reach its target can make the file longer, since joining puts a line with a
  section sign between blocks (`Trim.PartialTrimCanLengthen`). Reaching it makes the file shorter
  under every policy whose target ratio is below its trigger and at most 1 (`Trim.ReachedIsShorter`);
  no check enforces the latter, and above 1 it can fail (`Trim.WideTargetCanLengthen`).
- Time stamps have a resolution of one second. Promoting the same model twice within one second
  violates a key after the active row was retired in the same open transaction, and the next commit
  leaves no model in use (`Ledger.TwiceInASecond`). Rolling the connection back undoes it; committing
  what it left open is exactly what breaks the ledger (`LedgerSession.WholeStep`).
- Running an attached experiment again with the same suite in the same second, or with the same
  explicit time, replaces its row under the same id, and the foreign key
  (`ON DELETE SET NULL`) detaches approved proposals, which can then be promoted without an
  experiment (`Ledger.PromotedUnhooked`; both findings begin with empty tables in
  `Ledger.FindingsAreReached`).
- Rolling back a restoration returns to the promoted model but leaves its proposal `rolled_back`
  (`Ledger.RollbackRestores`). A proposal whose only targets are rates that should fall can never
  be recommended (`Ledger.GateIsSound`).
- A revision after rolling a memory back below its newest version fails on the key and leaves its
  first update in the open transaction, so that retries on the same connection climb until one
  goes through (`Curation.RetriesClimb`, `Curation.ClimbIsReached`).
- A crash after the commit inside `create_record` lets a tick leave two council records
  (`Autonomy.CrashRunsTwice`, `Autonomy.CrashIsReached`).
- The status of a failure cluster is fixed by the first event of its group: a group that begins
  with an event of low severity stays `open` when a critical one arrives, and no cluster is ever
  resolved (`Clusters.TableOfEveryRun`, `Clusters.CriticalStaysOpen`).
- The array reader takes away one comma per chunk boundary and value. Of a text that has more than
  one comma in a row before a value, how much is read depends on how it is cut into chunks; for
  all other texts it does not (`JsonStream.ChunksDoNotMatter`, `JsonStream.DoubleComma`). What does
  not decode ends the array without an error (`JsonStream.EveryArray`).
- A larger context budget can pack fewer items (`Packer.LargerBudgetPacksLess`), a repeated id
  pushes nDCG and average precision above 1, and a case that regresses can be hidden by the average
  (`Experiments.AveragingHidesRegression`).

## Assumptions

- SHA-256 and the ids made from it are injective. `flock` gives mutual exclusion. The last check of
  the target and `os.replace` are one atomic step. Writes that the code has synced are durable.
- One target file of one profile. Each SQL statement is atomic, and so is each transaction that
  commits or is rolled back by its own call. A transaction that a failed reconciliation leaves open
  is a state of its own: the rows inserted so far stay with its connection until somebody commits,
  rolls back or closes it. While it is open no statement of another connection writes
  to the database, as the write lock of SQLite has it: it waits, or raises, while reads, files and
  the file lock go on. On the same connection a trim, a reconciliation and a new authorization
  commit it first; a rollback does not, and is refused.
- SQL tables are maps or sequences of rows. `operation_id`, `authorization_id`,
  `(memory_id, version)`, promotion ids, lifecycle ids and the idempotency key of jobs are unique
  keys, as the schema declares.
- An evidence item and its raw event are one entry. The trim of a file runs under any policy.
- Time is a counter of seconds that does not go back. Thresholds and scores are exact numbers; the
  logarithmic discount is any falling sequence, and rounding any monotone function that fixes 0
  and 1, except in `Experiments.dfy`, where it is to six decimals, ties to even.
- Relevance grades are not negative.

## Model

| member | source | states |
|---|---|---|
| Blocks.SplitYieldsBlocks | src/mnemoir_provenance/live_overflow.py:169-170 | Splitting any text gives stripped, non-empty blocks that hold no separator. |
| Blocks.OneEntry | src/mnemoir_provenance/live_overflow.py:170 | A stripped, non-empty text is a single block if and only if it holds no section sign and no blank line: a line feed, white space, and another one. |
| Blocks.SplitExactly | src/mnemoir_provenance/live_overflow.py:169-170 | The blocks of a text are exactly the pieces that lay it out: stripped and undivided, and between two of them white space and section signs with a section sign or a blank line among them, before the first and after the last any white space and section signs. |
| Blocks.JoinLaysOut | src/mnemoir_provenance/live_overflow.py:172-173 | Joining lays blocks out in just this way: a line that holds just a section sign between two of them, and a line feed after the last. |
| Blocks.RoundTrip | src/mnemoir_provenance/live_overflow.py:169-173 | Joining such blocks and splitting the file again gives the same blocks, for every list of them. |
| Blocks.SplitKeepsVisible | src/mnemoir_provenance/live_overflow.py:169-170 | Every character that is not white space is in exactly one block, in file order. |
| Trim.TrimBlocks | src/mnemoir_provenance/live_overflow.py:178-196 | The in-place loop over the kept blocks ends, and computes the specified plan (or the policy error) for every text, file name and policy. |
| Trim.LimitExactly | src/mnemoir_provenance/overflow_policy.py:43-51 | Which limit holds for a file: that of the policy, or 2200 and 1375 characters when it has none, and only if it is positive. |
| Trim.TargetExactly | src/mnemoir_provenance/overflow_policy.py:450 | The target is the whole part of the limit times the target ratio. |
| Trim.BelowTriggerExactly | src/mnemoir_provenance/live_overflow.py:180-181 | A file is left alone as below the trigger if and only if it is within its limit and its share of the limit is below the trigger ratio; its text is then unchanged. |
| Trim.VerdictExactly | src/mnemoir_provenance/live_overflow.py:190-195 | Otherwise the target is reached if and only if the new text is within the target ratio of the limit, the reason is trimmed if and only if it is reached and something was removed, and target_unreachable in all other cases. |
| Trim.RefusedExactly | src/mnemoir_provenance/live_overflow.py:178-179 | A file is refused if and only if no positive limit holds for it or it is no memory file. |
| Trim.ProtectedExactly | src/mnemoir_provenance/live_overflow.py:175-176 | A block is protected if and only if one of the six marker words stands in it letter by letter, in whatever case. |
| Trim.TrimTakesFirst | src/mnemoir_provenance/live_overflow.py:182-191 | The removed blocks are the first unprotected ones of the file, in order; the other ones stay in order, and so do all protected ones. |
| Trim.NothingRemovedExactly | src/mnemoir_provenance/live_overflow.py:182-193 | At the trigger nothing is removed if and only if the joined blocks are within the target, or there is at most one, or all are protected. |
| Trim.TrimRemovesLeast | src/mnemoir_provenance/live_overflow.py:182-191 | The removed blocks are the shortest prefix of the unprotected ones that brings the joined text to the target; the loop stops short only with one block left or all kept blocks protected. |
| Trim.TrimPartition | src/mnemoir_provenance/live_overflow.py:182-196 | Kept and removed blocks interleave to the blocks of the file, nothing protected is removed, and the text changes exactly when something is removed. |
| Trim.TrimIdempotent | src/mnemoir_provenance/live_overflow.py:178-196 | Trimming a trimmed text changes nothing, under every policy and whether the target was reached, missed or blocked. |
| Trim.TrimLength | src/mnemoir_provenance/live_overflow.py:172-196 | Exact length of the result; the file gets shorter exactly when the canonical form of the input is shorter than the input and the weight of the removed blocks together. |
| Trim.ReachedIsShorter | src/mnemoir_provenance/live_overflow.py:190-195 | With a target ratio below the trigger ratio and at most 1, reaching the target makes the file strictly shorter. |
| Trim.TargetBelowTrigger | src/mnemoir_provenance/overflow_policy.py:426-480 | A triggered file is longer than the target, for all limits and all ratios with the target ratio below the trigger ratio and at most 1. |
| Trim.PartialTrimCanLengthen | src/mnemoir_provenance/live_overflow.py:172-193 | A concrete file that a trim which misses its target makes longer. |
| Trim.WideTargetCanLengthen | src/mnemoir_provenance/overflow_policy.py:37-51 | No check of the policy keeps the target ratio at most 1: a policy with a larger one, still below its trigger, whose target exceeds a triggered file, and under which reaching the target makes the file longer. |
| WritebackSafety.StepKeeps | src/mnemoir_provenance/live_overflow.py:470-745 | The invariant of the journal, the private directories, the evidence, the authorizations and all live processes is kept by every step: trim, rollback, reconciliation, kill, exception, torn write, outside edit, the clock, and the commit or loss of a transaction that a failed reconciliation left open; rows, backups and evidence only grow. |
| WritebackSafety.RecordEffect | src/mnemoir_provenance/live_overflow.py:435-446 | A transaction that goes through leaves one row with its exact content for each removed block, keeps every row that was there, tombstoned ones too, and adds no other. |
| WritebackTheorems.WriteAhead | src/mnemoir_provenance/live_overflow.py:499-554 | In every reachable state, if the trim has replaced the file then the backup holds the exact text before it and one durable spool, pending or committed, holds exactly the removed blocks; once completed, the evidence rows are there. |
| WritebackTheorems.VerdictOfEveryRun | src/mnemoir_provenance/live_overflow.py:499-658 | In every reachable state, by lengths alone: a trim is completed, with no error, if and only if its file was below the trigger or the new text is within the target; completed_partial with target_unreachable if it was cut and is not; blocked_target_unreachable if nothing could be removed. |
| WritebackTheorems.NotMutated | src/mnemoir_provenance/live_overflow.py:548-553 | authorized, locked, backup_durable and a failed_before_mutation set by an exception each imply that this operation never replaced the file. |
| WritebackTheorems.OneOperationPerAuthorization | src/mnemoir_provenance/live_overflow.py:357-395 | Over any interleaving, consumed authorizations and operation rows are in bijection, and a row carries the terms of its authorization. |
| WritebackTheorems.ConsumedForGood | src/mnemoir_provenance/live_overflow.py:372-393 | A consumed authorization stays so for ever; a rollback that presents it again does nothing, and a trim nothing but commit what an earlier call left open on its connection. |
| WritebackTheorems.FileChanges | src/mnemoir_provenance/live_overflow.py:524-528 | The file changes only by an outside edit, by the trim of content with the expected hash whose backup and spool are durable, or by a rollback to the exact bytes before the trim it undoes; the last two only if the file, inode included, is the one that the call has read. |
| WritebackTheorems.RollbackEnds | src/mnemoir_provenance/live_overflow.py:731-732 | The last mark of a rollback sets the operation it undoes to rolled_back and closes it for further rollbacks; its backup stays. |
| WritebackTheorems.TombstoneExactly | src/mnemoir_provenance/live_overflow.py:728 | The rollback of evidence keeps keys, contents, operations and times of all rows, and a row is tombstoned after it if and only if it was before or belongs to the operation that is undone. |
| WritebackTheorems.UndoneForGood | src/mnemoir_provenance/live_overflow.py:672-673 | An operation that was rolled back can never be rolled back again. |
| WritebackTheorems.RollbackMisreport | src/mnemoir_provenance/live_overflow.py:720-741 | Wherever an exception strikes a rollback, it leaves failed_before_mutation on a rollback that has replaced the file if and only if it strikes between the replacement and the mark after it. |
| WritebackTheorems.CrashBetweenMarks | src/mnemoir_provenance/live_overflow.py:731-732 | A crash between the last two marks leaves the original available for rollback, and reconciliation does not repair it. |
| WritebackRuns.TrimOutcome | src/mnemoir_provenance/live_overflow.py:470-558 | A trim that nothing disturbs, of a target with the expected hash whose plan changes it: the whole state after each of its statements; with recordable blocks it ends with the planned text, backup, committed spool, evidence and final row in place. |
| WritebackRuns.RollbackRestores | src/mnemoir_provenance/live_overflow.py:697-745 | Whatever strikes a rollback, and wherever: rolled_back means that exactly the evidence of the original is tombstoned, besides what was, and, unless somebody edits the file meanwhile, that its text is exactly the text before the trim. |
| WritebackRuns.TrimThenRollback | src/mnemoir_provenance/live_overflow.py:470-745 | Round trip: a trim and its rollback give back the old text, tombstone the evidence of the removed blocks and of no other operation, and close both operations. |
| WritebackStops.TrimStops | src/mnemoir_provenance/live_overflow.py:470-558 | A trim that nothing disturbs and that cannot be carried out, for another hash, a refused plan, a plan that changes nothing or evidence that cannot be recorded: file, evidence, directories and the whole final row, case by case. |
| WritebackStops.UndoStops | src/mnemoir_provenance/live_overflow.py:668-745 | A rollback that nothing disturbs of a file that is not what it expects: it changes nothing but its own row, which says concurrent_edit_detected, and its authorization. |
| WritebackMends.UnwindsExactly | src/mnemoir_provenance/live_overflow.py:590-615 | One reconciliation of a rollback that nothing disturbs, by the text of the file alone: if it is the text before the trim, exactly the evidence of the original is tombstoned, both operations are rolled_back and the original is closed; if not, and it is the text that the rollback expected, failed_before_mutation; otherwise recovery_required. The file is never touched. |
| WritebackMends.MendsExactly | src/mnemoir_provenance/live_overflow.py:616-665 | One reconciliation of a trim that nothing disturbs, by the file and the spool: completion with the recorded evidence, an open transaction with part of it, failed_before_mutation or recovery_required, and the whole row in each case. |
| WritebackRetrims.StandsExactly | src/mnemoir_provenance/live_overflow.py:443-445 | After an evidence transaction the row of a removed block stands if and only if it is new or stood before, and only a new row belongs to the operation. |
| WritebackRetrims.RetrimStaysBuried | src/mnemoir_provenance/live_overflow.py:435-446 | A trim, its rollback and a second trim of the restored file: the second one is closed with its evidence committed, inserts no row, and all rows that the first one had inserted are tombstones. |
| WritebackRecovery.RecordSucceeds | src/mnemoir_provenance/live_overflow.py:435-446 | Exactly when the evidence transaction goes through. |
| WritebackRecovery.DuplicateBlocksFail | schemas/sql/0001_initial_schema.sql:103-138 | No single transaction, whenever it runs, takes in two equal removed blocks that are not on record: the unique key of the event rows refuses the second. |
| WritebackRecovery.RecordEnriches | src/mnemoir_provenance/live_overflow.py:435-446 | Whatever is on record, the evidence transaction adds rows of this trim only and alters none, and when it goes through, all blocks are there: ids do not depend on the run. |
| WritebackRecovery.RecoveryEquivalence | src/mnemoir_provenance/live_overflow.py:564-665 | From evidence_pending on, after any crashes, exceptions, reconciliations, commits, rollbacks of the connection and waiting without an outside edit: one reconciliation ends with failed_before_mutation and the untouched file if the file was not replaced; if it was, the trim is finished if and only if it was before or its blocks are recordable in that second, and then agrees with the uninterrupted trim in file, evidence and row; otherwise nothing changes but the open transaction. Another reconciliation of a settled trim changes nothing. |
| WritebackDuplicates.FreshTransaction | src/mnemoir_provenance/live_overflow.py:435-446 | In a second in which none of the blocks has a row, an evidence transaction records the blocks up to the first repetition, and goes through if and only if those that are not on record differ from each other. |
| WritebackDuplicates.ReconciliationsNeeded | src/mnemoir_provenance/live_overflow.py:643-646 | On a connection that lives, a trim that has replaced the file is completed by the n-th reconciliation, each in a new second, if and only if n rounds suffice for the blocks that are not on record, equal blocks needing a round each. |
| WritebackDuplicates.EqualBlocksCount | schemas/sql/0001_initial_schema.sql:103-138 | As many rounds are needed as there are equal copies of a block, and at most one for each block. |
| WritebackDuplicates.NeverCompleted | src/mnemoir_provenance/live_overflow.py:533-553 | If each transaction that is left open is rolled back before the next one begins, a trim with equal blocks that are not on record is never completed, over every continuation with crashes, exceptions, outside edits and reconciliations, and none of its blocks gets on record. |
| WritebackScenarios.ArmedIsReached | src/mnemoir_provenance/live_overflow.py:499-528 | Every trim that is left alone comes to the state from which recovery equivalence is proved. |
| WritebackScenarios.EqualEntriesNeedTwo | src/mnemoir_provenance/live_overflow.py:533-553 | From an initial state, a trim that takes out two equal entries fails with the file replaced, and is completed by the n-th reconciliation if and only if n is at least 2. |
| WritebackScenarios.MisreportIsReached | src/mnemoir_provenance/live_overflow.py:720-741 | A run from an initial state in which a rollback has restored the file and says failed_before_mutation. |
| WritebackScenarios.HalfClosedIsReached | src/mnemoir_provenance/live_overflow.py:731-732 | A run from an initial state after which a rollback is over and the operation that it undid can be rolled back again. |
| WritebackScenarios.UnwindIsReached | src/mnemoir_provenance/live_overflow.py:606-610 | A rollback killed right after the file is back, from an initial state: the reconciliation tombstones the evidence and closes both operations. |
| WritebackScenarios.RetrimIsReached | src/mnemoir_provenance/live_overflow.py:435-446 | From an initial state: a second trim with committed evidence whose two rows are tombstones. |
| WritebackStore.Store.RecordRemovedBlocks | src/mnemoir_provenance/live_overflow.py:435-446 | The loop inserts, in the open transaction, the rows up to the first one that is refused, and says whether there was none; it rolls nothing back. |
| WritebackStore.Store.HandleException | src/mnemoir_provenance/live_overflow.py:548-554 | The handler writes failed_before_mutation if the row says authorized or locked, and recovery_required otherwise, keeps all other columns but the error, and returns a result without mutation. |
| WritebackStore.Store.ExecuteWriteback | src/mnemoir_provenance/live_overflow.py:470-558 | execute_writeback, statement by statement over mutable tables and files, with the fault hook raising or killing anywhere after the authorization is consumed and outside edits at every look at the target: it commits what an earlier call left open on the connection, then refuses exactly an authorization that is not there or consumed, and otherwise refines a run of this one trim, consumes the authorization, and reports a mutation exactly for the states that say so, which agree with the lengths of file and target. With no fault and no edit the whole result is given: if the hash is the expected one, the plan changes the text and its blocks are recordable, file, backup, committed spool, evidence and row are those of the plan, completed if and only if the new text is within the target; otherwise the file is untouched and the row says why. |
| WritebackStore.Store.RollbackWriteback | src/mnemoir_provenance/live_overflow.py:668-745 | rollback_writeback is refused exactly when a transaction is open or the authorization does not fit; otherwise it refines a run of this one rollback. It reports a mutation exactly when rolled_back, and then the original is closed, exactly its evidence is tombstoned and, without an outside edit meanwhile, the file has its old text. With no fault and no edit the whole result is given: it goes through if and only if the file has the expected hash. |
| WritebackStore.Store.ReconcileWriteback | src/mnemoir_provenance/live_overflow.py:564-665 | reconcile_writeback leaves a terminal row alone; any other call first commits what an earlier one left open; what the checks do not let through gets an advice or is refused, as the row says; the rest refines a run of one reconciliation, whose next action is conclusive for the state it leaves or nothing happened to the row. With no fault and no edit the whole result, state and next action, is given by the file and the spool, for trims and for rollbacks. |
| WritebackStore.Store.CreateAuthorization | src/mnemoir_provenance/live_overflow.py:332-351 | Succeeds exactly when neither the authorization nor the operation id is taken, and its commit takes along what an earlier call left open. |
| Ledger.AtMostOneModelInUse | src/mnemoir_provenance/improvement_proposals.py:420-519 | Over every run of the six calls at most one ledger row is active_local, and ids are unique. |
| Ledger.StaysIntact | src/mnemoir_provenance/improvement_proposals.py:425-466 | A call keeps the ledger an unbroken path whose newest row is active if and only if it is no promotion under an id that exists. |
| Ledger.UnbrokenLedger | src/mnemoir_provenance/improvement_proposals.py:420-519 | Without such a collision, and on a connection that is not rolled back, exactly one row is active once any promotion happened, it is the newest, and each row starts from the model of the row before it. |
| Ledger.GrowingClockIsEnough | src/mnemoir_provenance/improvement_proposals.py:435-438 | Strictly growing time stamps rule the collision out. |
| Ledger.CollisionDropsTheModel | src/mnemoir_provenance/improvement_proposals.py:453-466 | After a collision the connection sees no model in use. |
| Ledger.TwiceInASecond | src/mnemoir_provenance/improvement_proposals.py:435-466 | Promote, roll back, approve and promote again within one second is such a collision, for every proposal that can be promoted. |
| Ledger.RollbackRestores | src/mnemoir_provenance/improvement_proposals.py:476-519 | Rolling back restores the model in use just before; rolling the restoration back returns to the promoted one, while the proposal stays rolled_back. |
| Ledger.RowsOnlyRetire | src/mnemoir_provenance/improvement_proposals.py:453-519 | No call deletes a ledger row, or alters one but by its retirement, in what the connection sees. |
| Ledger.GateIsSound | src/mnemoir_provenance/improvement_proposals.py:354-389 | In every reachable state a recommended, approved or promoted proposal has an attached experiment of its two models that passed, with a passing safety gate and a target metric that is one of those that count and has grown, unless that experiment was run again meanwhile; targets that can never improve cannot be recommended. |
| Ledger.StaysAttached | schemas/sql/0001_initial_schema.sql:888-895 | Proposals past the gate stay attached to an experiment if and only if the call does not run the experiment of one of them again. |
| Ledger.PromotedUnhooked | src/mnemoir_provenance/improvement_proposals.py:425-466 | Every approved proposal whose experiment is run again under its id is still promoted, with no experiment attached. |
| Ledger.FreshApproval | src/mnemoir_provenance/improvement_proposals.py:392-434 | Between two promotions of one proposal there is an approval, given while it was recommended. |
| Ledger.FindingsAreReached | src/mnemoir_provenance/improvement_proposals.py:420-519 | From empty tables: a run that leaves no model in use, and one that promotes a proposal without an experiment. |
| LedgerSession.SoundStep | src/mnemoir_provenance/improvement_proposals.py:425-519 | With commits, rollbacks of the connection and calls that raise midway: committed ledger rows are only appended and retired; a rollback of the connection, and nothing else, takes back what the connection sees, to exactly what is committed. |
| LedgerSession.OneModelInBothLayers | src/mnemoir_provenance/improvement_proposals.py:420-519 | Over every such run at most one row is active_local, and ids are unique, in what is committed and in what the connection sees. |
| LedgerSession.WholeStep | src/mnemoir_provenance/improvement_proposals.py:453-466 | A call keeps the committed ledger an unbroken path, and the open one up to the retirement of a collision, if and only if it does not commit what a collision has left open, save by a promotion from the model of the last row. |
| LedgerSession.CommittedPath | src/mnemoir_provenance/improvement_proposals.py:420-519 | Over every run in which nobody commits what a collision left open, the committed ledger is one unbroken path whose newest row alone is active, and after a rollback of the connection that is what the connection sees. |
| LedgerSession.CollisionThenRollback | src/mnemoir_provenance/improvement_proposals.py:453-466 | A collision that is rolled back at once leaves no trace; one that is committed leaves nobody a model in use. |
| LedgerSession.BrokenForGood | src/mnemoir_provenance/improvement_proposals.py:453-519 | Once two neighbouring committed rows do not fit, no later run ever mends the path. |
| LedgerSession.WorkingIsRun | src/mnemoir_provenance/improvement_proposals.py:420-519 | What a connection that is never rolled back sees is what the runs of calls without layers give. |
| LedgerStore.GovernedModels.ProposeModel | src/mnemoir_provenance/improvement_proposals.py:281-302 | INSERT OR IGNORE of a draft: the tables become those of the specified call. |
| LedgerStore.GovernedModels.RecordExperiment | src/mnemoir_provenance/experiments.py:383-401 | INSERT OR REPLACE of the experiment with the effect of its foreign key on proposals. |
| LedgerStore.GovernedModels.BreakOffExperiment | src/mnemoir_provenance/experiments.py:383-420 | An experiment that raises at one of its cases leaves its blocked row, and the proposals it detached, in the open transaction. |
| LedgerStore.GovernedModels.Attach | src/mnemoir_provenance/improvement_proposals.py:330-359 | Attaching an experiment of the same two models, in the statuses that allow it; an error changes nothing. |
| LedgerStore.GovernedModels.AnyImproved | src/mnemoir_provenance/improvement_proposals.py:370-373 | The loop over target metrics finds an improvement exactly when one exists. |
| LedgerStore.GovernedModels.EvaluatePromotion | src/mnemoir_provenance/improvement_proposals.py:362-389 | The proposal is recommended exactly when its experiment passes the gate, whatever its status was. |
| LedgerStore.GovernedModels.ReviewImprovement | src/mnemoir_provenance/improvement_proposals.py:392-417 | A review; approval only of a recommended proposal, and an error changes nothing. |
| LedgerStore.GovernedModels.PromoteVersion | src/mnemoir_provenance/improvement_proposals.py:425-466 | Retire, insert, mark, commit: succeeds exactly for an approved proposal under a new id, and then its candidate is in use; otherwise nothing is committed. |
| LedgerStore.GovernedModels.RollbackVersion | src/mnemoir_provenance/improvement_proposals.py:476-519 | Succeeds exactly for the active row, and then the model it came from is in use; an error changes nothing. |
| Curation.RunKeeps | src/mnemoir_provenance/curation.py:93-442 | Over every run of calls on one connection, committed version rows are never altered or deleted. |
| Curation.VersionsAreAChain | src/mnemoir_provenance/curation.py:257-352 | The version rows of a memory are exactly 1..n, row v is chained to the hash of row v-1, and current_version names one of them. |
| Curation.OneVersionPerProposal | src/mnemoir_provenance/curation.py:252-355 | A proposal yields at most one version, exactly one when it is written. |
| Curation.VersionsAreApproved | src/mnemoir_provenance/curation.py:185-249 | Every version has the text of its proposal as it stood at its last review, which approved it. |
| Curation.ReviseBelowTop | src/mnemoir_provenance/curation.py:268-310 | A revision goes through if and only if the current version is the newest; otherwise no version row is touched and current_version has moved on by one in the open transaction. |
| Curation.RetriesClimb | src/mnemoir_provenance/curation.py:279-310 | Failed attempts on one connection move current_version up until the next attempt goes through as version n + 1. |
| Curation.DiscardForgets | src/mnemoir_provenance/curation.py:252-355 | Rolling the connection back after a failed attempt restores the state before it. |
| Curation.ClimbIsReached | src/mnemoir_provenance/curation.py:252-355 | From a new session: a revision below the newest version that fails once and then becomes version 3. |
| CurationStore.Connection.CreateProposal | src/mnemoir_provenance/curation.py:93-157 | INSERT OR IGNORE of a proposal: the tables become those of the specified call. |
| CurationStore.Connection.ReviewProposal | src/mnemoir_provenance/curation.py:185-249 | Approve, reject and edit succeed exactly in the statuses that allow them; an error changes nothing. |
| CurationStore.Connection.PutVersion | src/mnemoir_provenance/curation.py:305-352 | The insert of a version row, its lifecycle row and the mark of the proposal, as far as the keys allow. |
| CurationStore.Connection.WriteMemory | src/mnemoir_provenance/curation.py:252-355 | write_memory over the open transaction; a duplicate key overwrites no version and marks no proposal. |
| CurationStore.Connection.TombstoneMemory | src/mnemoir_provenance/curation.py:389-414 | The memory is tombstoned, and keeps its current version. |
| CurationStore.Connection.RollbackMemory | src/mnemoir_provenance/curation.py:417-442 | The current version is the one asked for, the memory is active, and no version row has changed. |
| Autonomy.AtMostOneTickPerKey | src/mnemoir_provenance/autonomy.py:122-158 | Over every run there is at most one tick per idempotency key, the duplicate branch is never taken, and planning again under a key changes nothing. |
| Autonomy.RecordLaw | src/mnemoir_provenance/autonomy.py:162-209 | Over every run a tick has one council record for each of its lost runs and one more exactly when it succeeded; without a crash it has exactly one if it succeeded and none otherwise, and none ever for an action that needs approval or is denied. |
| Autonomy.JobAgrees | src/mnemoir_provenance/autonomy.py:162-250 | The status of the job always agrees with that of its tick, and only create_record ever runs or succeeds. |
| Autonomy.StaysSettled | src/mnemoir_provenance/autonomy.py:186-209 | From a state in which no tick and no job is running, a call leads to such a state if and only if it is no run that gets to create_record and fails there. |
| Autonomy.Absorbing | src/mnemoir_provenance/autonomy.py:220-250 | Succeeded is absorbing over every run; failed can only become cancelled, and cancelled stays. |
| Autonomy.CrashRunsTwice | src/mnemoir_provenance/autonomy.py:186-209 | A crash after the commit of the record makes a second run leave a second record. |
| Autonomy.CrashIsReached | src/mnemoir_provenance/autonomy.py:162-209 | From empty tables: a tick that has succeeded with two records of its own. |
| AutonomyStore.Runtime.PlanTick | src/mnemoir_provenance/autonomy.py:97-159 | The tables become those of the specified call; a tick is created exactly when something changes, and afterwards the key is taken. |
| AutonomyStore.Runtime.RunIt | src/mnemoir_provenance/autonomy.py:162-209 | run_tick with its commits; when it reports execution, the new record is owned by the tick, which has succeeded. |
| AutonomyStore.Runtime.PauseTick | src/mnemoir_provenance/autonomy.py:220-227 | Pausing succeeds exactly outside the terminal statuses. |
| AutonomyStore.Runtime.ResumeTick | src/mnemoir_provenance/autonomy.py:230-237 | Resuming succeeds exactly from paused. |
| AutonomyStore.Runtime.KillTick | src/mnemoir_provenance/autonomy.py:240-250 | Killing succeeds exactly unless succeeded or deduped, so that a failed tick can become cancelled. |
| Json.TreeParses | src/mnemoir_provenance/benchmark.py:914-918 | Every text of the JSON grammar, with any white space and with NaN and the infinities besides, decodes to its value and leaves what follows it; after a number nothing, white space or a delimiter must follow. |
| Json.ValueSound | src/mnemoir_provenance/benchmark.py:914-918 | Whatever decodes is a text of the grammar followed by the rest, and the value is its value. |
| Json.ObjectExactly | src/mnemoir_provenance/benchmark.py:914-918 | The texts that decode to an object and leave nothing are exactly the objects of the grammar. |
| Json.NoProperPrefixParses | src/mnemoir_provenance/benchmark.py:914-918 | No proper prefix of the text of a JSON object decodes. |
| Json.ObjectWithMore | src/mnemoir_provenance/benchmark.py:914-918 | What follows an object does not change what is decoded, nor how much of the text it takes. |
| JsonStream.ReadPrefix | src/mnemoir_provenance/benchmark.py:892-923 | The two nested loops over chunks and buffer compute the specified outcome, errors included. |
| JsonStream.ChunkIndependence | src/mnemoir_provenance/benchmark.py:892-923 | For every JSON array of objects of the grammar, any white space, anything after it and every chunking, the reader returns the values of the first `limit` elements if and only if the first chunk is not all white space or nothing is asked for; otherwise it raises. |
| JsonStream.EveryArray | src/mnemoir_provenance/benchmark.py:892-923 | The same for every text after an opening bracket: objects with white space and at most one comma between them are returned up to the limit; if fewer come and then a value that is no object, the reader raises; the closing bracket, the end of the text and what does not decode end the array. |
| JsonStream.ChunksDoNotMatter | src/mnemoir_provenance/benchmark.py:892-923 | For every text and limit, all ways to cut it whose first chunk is not all white space give the same outcome if and only if it is no array with more than one comma in a row before a value that the limit lies beyond. |
| JsonStream.DoubleComma | src/mnemoir_provenance/benchmark.py:892-923 | A concrete text of which the chunks decide how much is read. |
| Ranking.NoRankingBeatsTheIdeal | src/mnemoir_provenance/benchmark.py:127-132 | For every ranking without repeated ids, every falling discount and every increasing gain, DCG at k is at most that of the sorted grades. |
| Ranking.DcgExactly | src/mnemoir_provenance/benchmark.py:129-130 | In plain terms, for every ranking: one id more adds its gain times the discount of its position up to position k, and nothing beyond; an id without a grade has grade 0. |
| Ranking.IdealIsUnique | src/mnemoir_provenance/benchmark.py:131 | All ways of breaking ties give the same ideal DCG. |
| Ranking.NdcgIsNormalized | src/mnemoir_provenance/benchmark.py:127-132 | nDCG is the rounded quotient of the two sums, or 0 when the ideal is 0; without repeated ids it lies in [0,1] for every monotone rounding that fixes 0 and 1, and is 1 for the sorted grades unless nothing can be gained. |
| Ranking.RepeatedIdBeatsTheIdeal | src/mnemoir_provenance/benchmark.py:127-132 | With a repeated id nDCG can exceed 1. |
| Ranking.AveragePrecision | src/mnemoir_provenance/benchmark.py:134-141 | The running-hits loop computes average precision before rounding; without repeated ids it is at most 1, and 1 exactly when the relevant ids come first. |
| Ranking.PrecisionExactly | src/mnemoir_provenance/benchmark.py:134-141 | In plain terms: a relevant id adds the number of relevant ones up to it divided by its position, any other id nothing. |
| Ranking.RepeatedHitCountsTwice | src/mnemoir_provenance/benchmark.py:134-141 | With a repeated id average precision can be 2. |
| Ranking.NormalizedPrecision | src/mnemoir_provenance/benchmark.py:90-109 | Mean precision at k never exceeds the ceiling of the relevant counts, and reaches it exactly when every ranking is perfect. |
| Ranking.OneQueryMore | src/mnemoir_provenance/benchmark.py:90-109 | In plain terms: one query more adds its distinct relevant ids among the first k to the mean, and as many as it has, at most k, to the ceiling. |
| Fusion.FuseRankings | src/mnemoir_provenance/benchmark.py:1064-1075 | The fusion loop and sort give a permutation of the sessions in which whoever comes first has the larger sum of 1 / (60 + position) over both rankings, or the same sum and the better overlap position; the last occurrence counts, and 9999 stands for none. |
| Fusion.FusionRespectsAgreement | src/mnemoir_provenance/benchmark.py:1071-1075 | A session ahead in either ranking and not behind in the other is ahead in the fused one. |
| Fusion.FusionIsDetermined | src/mnemoir_provenance/benchmark.py:1069-1075 | The order in which the sessions are listed does not matter. |
| RoundRobin.Select | src/mnemoir_provenance/benchmark.py:2394-2399 | The rounds end with min(limit, available) picks; each bucket is read first in, first out, each pick comes from the bucket with rows left that was picked from least often, of several the first, and no bucket is ever more than one pick ahead of one that still has rows. |
| RoundRobin.OneSelection | src/mnemoir_provenance/benchmark.py:2394-2399 | These rules leave no choice: two selections of the same length are equal. |
| RoundRobin.PicksAreDistinct | src/mnemoir_provenance/benchmark.py:2394-2399 | No row is picked twice. |
| Packer.Pack | src/mnemoir_provenance/hermes_provider.py:1004-1049 | The nested loops compute the specified decisions; used is the length of the JSON text of the packed items, remaining what is left of the budget or 0, the truncation count the number of truncated items, and the status follows from omissions, truncations and candidates. |
| Packer.SortLaw | src/mnemoir_provenance/hermes_provider.py:1008 | The order is by rank, a permutation, and keeps the order of candidates of equal rank. |
| Packer.EachDecision | src/mnemoir_provenance/hermes_provider.py:1011-1022 | What is packed of a candidate is the item with the longest snippet, whole or cut to 500, 240, 120, 60, 20 or 0 characters, with which the JSON text fits after the items before it; a candidate that is omitted fits the final payload at no length, not even without its snippet. |
| Packer.ListsExactly | src/mnemoir_provenance/hermes_provider.py:1018-1023 | Place by place, the packed list holds the packed items in the order of the candidates, the omitted list the other candidates, and neither holds anything else. |
| Packer.Partition | src/mnemoir_provenance/hermes_provider.py:1008-1023 | Packed and omitted candidates are together the candidates, both lists in rank order. |
| Packer.RequestedBudgetHolds | src/mnemoir_provenance/hermes_provider.py:895-904 | For every candidate list and every accepted request, the payload stays within the normalized budget, which is between 64 and 50000. |
| Packer.BudgetExactly | src/mnemoir_provenance/hermes_provider.py:895-904 | A request is refused if and only if it is no number or below 1; otherwise it stands for itself, or the nearest of 64 and 50000, and none for 4000. |
| Packer.PayloadLength | src/mnemoir_provenance/hermes_provider.py:907-908 | The lengths that the packer adds up are those of the JSON text, escapes and surrogate pairs included. |
| Packer.WithinBudget | src/mnemoir_provenance/hermes_provider.py:1011-1024 | The same for every budget that an empty payload fits. |
| Packer.BlockedExactly | src/mnemoir_provenance/hermes_provider.py:1026-1030 | Nothing is packed exactly when no candidate, alone and without its snippet, fits. |
| Packer.LargerBudgetPacksLess | src/mnemoir_provenance/hermes_provider.py:1011-1022 | A larger budget can pack fewer candidates. |
| Segments.SegmentText | src/mnemoir_provenance/ingest.py:120-136 | The loop computes the segmentation: exactly the maximal runs of lines that are not blank, with their line numbers, apart and in order, covering every such line. |
| Segments.SplitLinesExactly | src/mnemoir_provenance/ingest.py:120-136 | The lines of a text are exactly those that lay it out with line ends: one of ten break characters, or carriage return and line feed together; only a last line that is not empty can do without. |
| Segments.OneSegmentation | src/mnemoir_provenance/hermes_provider.py:210-226 | Those properties determine the blocks, so that both segmenters return the same. |
| Segments.SegmentingAgain | src/mnemoir_provenance/ingest.py:120-136 | For every text, segmenting the contents joined by blank lines gives the same contents. |
| Experiments.CaseMetricDefaults | src/mnemoir_provenance/experiments.py:143-179 | The loops over ranks, explicit metrics and flags give each metric its value by precedence, in whatever order the keys come. |
| Experiments.RankExactly | src/mnemoir_provenance/experiments.py:146-150 | Which of the rank fields counts, for all that are absent or null. |
| Experiments.MetricExactly | src/mnemoir_provenance/experiments.py:143-179 | In plain terms, metric by metric: a flag decides before a given metric, a given metric before the rank, each with its value; what has none of them is 0. |
| Experiments.ApplyAdjustments | src/mnemoir_provenance/experiments.py:182-187 | The loop shifts and clamps each adjusted metric, and fails exactly on a value that is no number. |
| Experiments.CandidateCaseMetrics | src/mnemoir_provenance/experiments.py:190-214 | The candidate side: its own results, or the adjusted, re-ranked and forced baseline. |
| Experiments.CandidateExactly | src/mnemoir_provenance/experiments.py:182-214 | In plain terms: without results of its own the candidate is the baseline with both deltas added and cut to [0,1] one after the other; a rank adjustment decides the three rates of the rank, a forced regression its metric, and a delta that is no number fails the case. |
| Experiments.MetricsAreRates | src/mnemoir_provenance/experiments.py:122-214 | For every fixture and every configuration all metrics of both sides lie in [0,1]. |
| Experiments.SafetyFindings | src/mnemoir_provenance/experiments.py:230-258 | The findings are exactly those that hold, each in plain terms, and there are none exactly when the gate passes. |
| Experiments.RunCandidateExperiment | src/mnemoir_provenance/experiments.py:406-461 | The case loop reports each case and the average with their gates; if every case passes, so does the experiment. |
| Experiments.PassingCasesPass | src/mnemoir_provenance/experiments.py:217-258 | If every case passes the gate, the rounded average passes it. |
| Experiments.GateOnAverage | src/mnemoir_provenance/experiments.py:217-258 | Exactly when the gate passes on the rounded average: a rate that must be zero may sum up to half a millionth of the number of cases. |
| Experiments.RoundExactly | src/mnemoir_provenance/experiments.py:217-224 | Rounding gives a whole number of millionths at most half a millionth away, the even one of two that are as near. |
| Experiments.MeanExactly | src/mnemoir_provenance/experiments.py:217-224 | The mean times the number of cases is the sum of the cases, which are added one by one. |
| Experiments.OneLeakFails | src/mnemoir_provenance/experiments.py:217-258 | One leaking case fails the experiment in every suite of fewer than two million cases. |
| Experiments.AveragingHidesRegression | src/mnemoir_provenance/experiments.py:217-258 | The average can pass although a case fails. |
| Clusters.Ledger.Summarize | src/mnemoir_provenance/learning.py:329-333 | The loop over the events of a group finds the worst severity and the counts per source. |
| Clusters.Ledger.Refresh | src/mnemoir_provenance/learning.py:299-380 | The loops over groups and stale clusters leave the specified table, in whatever order the groups come. |
| Clusters.Ledger.Record | src/mnemoir_provenance/learning.py:220-253 | Recording an event and refreshing leaves the specified log and table. |
| Clusters.RefreshExactly | src/mnemoir_provenance/learning.py:299-380 | One refresh of any table, in plain terms: a group with events gets their count, worst severity, times and source counts and keeps its status, a new one is watched if and only if an event is a warning or worse; a cluster without events is resolved and keeps the rest. |
| Clusters.MembersExactly | src/mnemoir_provenance/learning.py:317-327 | The events of a group are, in the order of the log, exactly those with its failure class, kind, profile and session, a missing one counting as empty. |
| Clusters.CoverageExactly | src/mnemoir_provenance/learning.py:330-333 | The count of a source is the number of its events, and those without a source or with an empty one count as unlinked. |
| Clusters.TableOfEveryRun | src/mnemoir_provenance/learning.py:220-396 | After any sequence of recordings and reads from an empty ledger: the clusters are exactly the groups of the log; count, first and last time, severity and source counts of each are the folds of its events; its status is the one of its first event, and none is resolved. |
| Clusters.FoldsAreBounds | src/mnemoir_provenance/learning.py:303-337 | The folds are the maximum severity and the least and greatest time. |
| Clusters.CountsAreConserved | src/mnemoir_provenance/learning.py:303-337 | After any such sequence, the event counts of the whole table add up to the number of failure events in the log, and the source counts of a cluster to its event count. |
| Clusters.RefreshTwice | src/mnemoir_provenance/learning.py:299-380 | Refreshing twice changes nothing but the update time. |
| Clusters.RecordTwice | src/mnemoir_provenance/learning.py:220-253 | Recording the same event again changes nothing but the update time. |
| Clusters.OneMoreEvent | src/mnemoir_provenance/learning.py:299-380 | A new failure event extends its own cluster by one and touches no other. |
| Clusters.CriticalStaysOpen | src/mnemoir_provenance/learning.py:343-374 | A group that begins with an event of severity info has a cluster of severity critical and status open after a critical event. |

## Left out

- WritebackRecovery.RecoveryEquivalence: follows one trim without outside edits and without other operations; what those do is covered by `WritebackSafety.StepKeeps` and the theorems on runs.
- WritebackDuplicates.ReconciliationsNeeded: follows one trim and its reconciliations; another trim of the same content under another policy can record one of the equal blocks first, and is not followed.
- WritebackDuplicates.NeverCompleted: likewise.
- WritebackStore.Store.ExecuteWriteback: private writes are whole or absent in the object; torn private writes are moves of the step machine only. A fault before the authorization is consumed changes nothing but the commit of what was open, and is not a strike of the object.
- Ranking.NormalizedPrecision: before rounding; the quotient of two rounded numbers can exceed 1 in its last digit.
- Ranking.NdcgIsNormalized: over exact numbers; floating-point error is not modelled.
- Experiments.GateOnAverage: sums and rounding are exact; `round` on binary floats may differ in a tie, and an integer field that `int` refuses is not modelled.
- Json.TreeParses: the recursion limit of the decoder, numbers out of range and lone surrogates are not modelled; a number and a string are given as they are written, and members with the same key are all listed.
- Packer.RequestedBudgetHolds: a request that overflows `int` (an infinity) raises another error and is not modelled.
- Authorization checks: signature, expiry, target binding and path rules are one abstract check; only one-shot consumption is modelled. `execute_writeback` does not look at the operation type, and neither does the model.
- File descriptors, symbolic links, ownership, modes and directory syncs; temporary files of a replacement.
- Automatic promotion after the evidence commit, and `evaluate_auto_promote`: they write memories, which the writeback states never read.
- `run_live_overflow_coordinator` and the status calls: they loop over the operations modelled here; that the coordinator swallows the exception of a reconciliation and its caller commits is the move `Commit`.
- Which of two connections wins the write lock, and how long the other waits: a waiting statement does nothing, or raises.
- `plan_overflow_trim` and `promote_high_signal_blocks`: tables of counters over blocks, and SQL writes of the kind that `Curation.dfy` covers. Of `overflow_policy.py` only limits, thresholds and target are modelled, which the trim uses.
- `generate_improvement_proposals`: a proposal enters the ledger as a draft with given models and targets; how they are chosen from clusters is not modelled.
- Memory evidence, provenance edges, audit events and policy decision rows: written, never read by the modelled calls.
- Who may write and review in curation, and whether references exist: one parameter says whether these checks pass.
- Lower-casing in the protection rule covers ASCII and the Kelvin sign, the only characters that can produce the marker words.
- Sample event ids and metadata of a cluster; cluster rows are never deleted by the code.
- The TF-IDF and overlap rankings that are fused: any two rankings.
- The buckets of the round-robin selector are given; how a row gets its bucket is not modelled.
- Context items: the JSON text of an item before its snippet and between its last two fields is given; annotations, evidence windows and what else a context answer holds are not modelled.
- Offline experiments: text sanitizing, model lookup and the JSON columns of the rows; a rank field is absent, null or an integer.
- Council queries, the command line, the local server, the adapters, provider calls, fact extraction, dataset download and the synthetic benchmark cases.
