# CSGDB: model and proofs

CSGDB is a typed layer over SQLCipher. This project models the parts of it that
carry an argument rather than plumbing, and proves that argument with Dafny 4.11:

- **the typed query compiler** (`Predicate`, `QueryCompiler`): predicate trees become
  SQL text and a value vector. `SqlText`, `SqlSyntax` and `SqlEval` give the engine's
  side independently: a lexer, a precedence parser, parameter numbering, three-valued
  logic, and a SELECT that may return any sorted cut. The text is shown to lex, parse
  and evaluate to what the tree means (`PredicateMeaning`, `QueryMeaning`), and the
  result of a query to be one determined list (`QueryAnswers`); what the limits count and
  what the rows are is then said without the compiler (`PredicateShape`, `QueryOrder`);
- **generated CRUD** (`CrudText`, `CrudMeaning`, `Crud`, `CrudRuns`): the statements the
  derive macro emits, with the value vectors built elsewhere, act as a map from keys to
  records over whole runs of calls;
- **schema descriptors** (`Descriptor`, `Derive`): the length-prefixed text behind the
  schema fingerprint is read back by a decoder, so equal texts mean equal schemas; and
  whatever the derive macro accepts is valid at run time;
- **registration and migration** (`Schema`, `Catalogue`, `Migration`, `Registration`): the
  statements of both operations, what they do together, and exactly when a schema can be
  registered; on a connection that may refuse any of them (`Session`), what an error leaves
  behind (`Atomicity`), the registries over whole runs of calls, failures and outside
  changes to the physical schema (`History`), and two runs in which the code does not keep
  its documentation (`Lapses`);
- **the connection manager**: group commit over an engine that may refuse anything
  (`GroupCommit`); the bounded write queue as a step machine over every interleaving
  (`WriteQueue`, `QueueRuns`, `QueueProgress`); both together (`WriterOrder`); the reader
  pool (`ReaderPool`); the two
  re-entrancy checks and the wait-for graph (`PoolCalls`); WAL maintenance and the cache
  budget (`Maintenance`);
- **streaming HMAC** (`Hmac`) against section 2 of RFC 2104;
- **the fault controller** (`Fault`) over arbitrary traces.

`dafny verify dfyconfig.toml` checks everything.

## Conventions

- A `Text` is the UTF-8 form of a Rust `str`, one element per byte.
- Objects that the program updates in place are classes (`QueryText`, `Connection`,
  `WriteQueue`, `ReadPool`, `CallbackStack`, `Database`, `Context`, `Controller`, `File`,
  `Writer`), loops are loops, and each method is proved against a function or predicate
  about which the lemmas then speak.
- A critical section between two waits is one method of `WriteQueue` or `ReadPool` and one
  step of `QueueRuns` or `ReaderPool`; both use the same functions. Sleepers may wake
  without reason and timeouts may expire at any step.
- An engine operation that may fail is a nondeterministic choice, or, in `Session`, a verdict
  taken from an arbitrary function. A failed statement may leave any partial effect or roll
  the whole transaction back; outside a transaction a statement commits by itself, and
  COMMIT fails; even the rollback of a dropped transaction may fail.
- Where documentation and code differ the code is followed:
  - `migrate_collection` says that a recorded migration, applied again, returns
    `AlreadyApplied`. The code does so only until a later migration of the collection
    commits: `Lapses.SupersededMigrationIsRefused` is a concrete run,
    `History.ReapplyingExactly` the exact condition.
  - It says that every failure rolls the transaction back. The callback may run a statement
    that costs the transaction, pass over the error and return Ok; what follows then commits
    statement by statement and the call fails at its COMMIT:
    `Lapses.SwallowedRollbackCommits` is a concrete run, `Atomicity.FailedMigrationExactly`
    and `History.CallKeepsFaithfulExactly` the exact conditions.
  - The macro and the validator accept a schema whose index has its table's name; the engine
    keeps both in one name space, so it can never be registered:
    `Registration.SameNameNeverRegisters`, with `Registration.RegistersExactly`.

## Model

| member | source | states |
|---|---|---|
| `SqlText.LexPrint` | crates/csgdb/src/query.rs:849-858 | any separated layout of tokens, with names holding quotes, question marks or blanks, lexes back to exactly those tokens |
| `Predicate.QueryText.PushIdentifier` | crates/csgdb/src/query.rs:849-858 | appends the quoted form whose quotes are doubled; `LexPrint` reads it back as that one name |
| `Predicate.QueryText.CompileTest` | crates/csgdb/src/query.rs:750-780 | a comparison is accepted exactly when the field is the schema's, the value is of the column's storage class, and NULL meets a nullable field and only = or <>; text and value vector grow together |
| `Predicate.QueryText.CompileNullCheck` | crates/csgdb/src/query.rs:781-793 | a null test is accepted exactly on a nullable schema field |
| `Predicate.QueryText.CompilePredicate` | crates/csgdb/src/query.rs:738-812 | accepted if and only if at most 256 nodes, depth at most 32 and every leaf legal, counted from the caller's depth and counter; the counter grows by exactly the tree size |
| `PredicateShape.AcceptedExactly` | crates/csgdb/src/query.rs:738-812 | a tree is accepted if and only if it has at most 256 positions, none more than 31 steps from the root, and a legal leaf at every end |
| `PredicateShape.LeafMeans` | crates/csgdb/src/query.rs:750-793 | a test means its operator on numbers, is unknown on a NULL column, and against NULL asks whether the column is NULL |
| `PredicateShape.TextLeafMeans` | crates/csgdb/src/query.rs:750-780 | a test on texts or blobs means its operator bytewise |
| `PredicateShape.TreeMeans` | crates/csgdb/src/query.rs:794-810 | AND, OR and NOT are true and false exactly as their operands decide |
| `PredicateMeaning.CompiledTextMeansTree` | crates/csgdb/src/query.rs:738-858 | for every legal tree and row, the emitted text lexes, uses as many parameters as there are values, parses completely, and evaluates in three-valued logic to the tree's own meaning |
| `QueryCompiler.CompileOrder` | crates/csgdb/src/query.rs:709-726 | accepted exactly when every term is a schema field and no id repeats; emits the terms and then the key if it is not among them |
| `QueryCompiler.CompileQuery` | crates/csgdb/src/query.rs:680-736 | accepted exactly with a limit of 1 to 10,000, at most 8 terms, a valid schema and legal predicate and order; its text and values |
| `QueryCompiler.CompileExistsQuery` | crates/csgdb/src/query.rs:652-678 | exact acceptance of an existence query, and its text and values |
| `QueryMeaning.QueryPrepares` | crates/csgdb/src/query.rs:680-736 | the emitted text prepares to one SELECT with the schema's columns, the predicate's filter, the order and a bound limit; its parameter count is the number of values |
| `QueryAnswers.ExistsPrepares` | crates/csgdb/src/query.rs:652-678 | the existence text prepares to a one-row SELECT over the same filter with as many parameters as values |
| `QueryAnswers.FullOrderShape` | crates/csgdb/src/query.rs:709-726 | the emitted ORDER BY names no column twice and always names the key |
| `QueryAnswers.KeyedOrderIsTotal` | crates/csgdb/src/query.rs:709-726 | such an order is strict and total on the rows of any table |
| `QueryAnswers.QueryAnswered` | crates/csgdb/src/query.rs:860-871 | the engine may return a list if and only if it is the sorted first min(limit, matches) rows |
| `QueryAnswers.AnswerForgetsStorage` | crates/csgdb/src/query.rs:860-871 | that list is the same for every storage order of the rows |
| `QueryAnswers.ExistsAnswered` | crates/csgdb/src/query.rs:873-879 | existence is reported if and only if some row matches |
| `QueryAnswers.ExistsAgreesWithTake` | crates/csgdb/src/query.rs:860-879 | existence agrees with the same predicate under any valid limit |
| `QueryAnswers.CompiledQueryRuns` | crates/csgdb/src/query.rs:680-736 | from text to rows: prepares, binds without a count mismatch, and returns exactly the reference answer on every table |
| `QueryOrder.CompiledQueryAnswers` | crates/csgdb/src/query.rs:680-736 | whatever the engine may return for the compiled text reads the schema's table and columns and is: matching rows, at most the limit and all of them if fewer, each before those behind it and those cut off by the first caller term in which they differ, in that term's direction, and by the ascending key if in none |
| `Binding.Statement.BindAll` | crates/csgdb-storage/src/lib.rs:768-796 | a count mismatch is found before anything is bound; success puts the k-th value in the k-th slot; an engine error, reported exactly when the engine refuses a slot, clears every slot |
| `Schema.ValidateFields` | crates/csgdb/src/collection.rs:1505-1528 | true if and only if names are valid, ids and columns distinct, and there is exactly one key, not nullable |
| `Schema.ValidateIndexes` | crates/csgdb/src/collection.rs:1530-1546 | true if and only if every index is valid over the columns and ids and names are distinct |
| `Schema.ValidateCollectionSchema` | crates/csgdb/src/collection.rs:1494-1548 | true if and only if the schema is valid |
| `Schema.ValidSchemaExactly` | crates/csgdb/src/collection.rs:1494-1548 | the valid schemas written out: names, version, descriptor, distinct fields with exactly one key, not nullable, and indexes over distinct columns of them |
| `Schema.NameRules` | crates/csgdb/src/collection.rs:1568-1570 | names are 1 to 255 bytes without NUL; `__csgdb_` is the reserved prefix |
| `CrudMeaning.InsertPrepares` | crates/csgdb-derive/src/lib.rs:702-709 | the INSERT text means an insert of all columns from parameters 1..n, for every column name |
| `CrudMeaning.SelectByKeyPrepares` | crates/csgdb-derive/src/lib.rs:711-715 | the SELECT text means the columns of the row whose key is parameter 1 |
| `CrudMeaning.UpdatePrepares` | crates/csgdb-derive/src/lib.rs:717-734 | the UPDATE text sets every column but the key from parameters 1..n-1 and filters by parameter n, a key-only record setting the key to itself |
| `CrudMeaning.DeletePrepares` | crates/csgdb-derive/src/lib.rs:736-739 | the DELETE text removes the row whose key is parameter 1 |
| `Crud.UpdateValues` | crates/csgdb/src/collection.rs:1078-1091 | fails exactly without a key position inside the values; otherwise the other values in order, then the key |
| `Crud.MutableAreOthers` | crates/csgdb-derive/src/lib.rs:717-734 | the columns set by the UPDATE text are all columns without the key, in the order of the value vector |
| `Crud.InsertActs` | crates/csgdb-derive/src/lib.rs:702-709 | inserting a record is map insertion; a present key is a conflict |
| `Crud.SelectActs` | crates/csgdb-derive/src/lib.rs:711-715 | selecting by key is map lookup |
| `Crud.UpdateActs` | crates/csgdb-derive/src/lib.rs:717-734 | updating with the rearranged vector replaces the record under its key, counts it, and changes no other row |
| `Crud.DeleteActs` | crates/csgdb-derive/src/lib.rs:736-739 | deleting by key is map removal |
| `CrudRuns.UniquesOnMap` | crates/csgdb-derive/src/lib.rs:688-700 | the unique indexes hold of a table if and only if they hold of its map from keys to records |
| `CrudRuns.CallsRefineMap` | crates/csgdb/src/collection.rs:758-778 | every run of insert, update and delete calls, each prepared from its text and bound to its vector, leaves the contents and reports the outcomes of the same run on a map, conflicts of unique indexes included |
| `CrudRuns.LookupAfterCalls` | crates/csgdb/src/collection.rs:764-767 | after any run, a lookup returns the map's record for the key |
| `Descriptor.CanonicalSchema` | crates/csgdb-derive/src/lib.rs:608-636 | computes the descriptor text of the fields in id order |
| `Descriptor.CanonicalIndex` | crates/csgdb-derive/src/lib.rs:638-667 | computes the index descriptor text of the zipped ids and columns |
| `Descriptor.SchemaTextExactly` | crates/csgdb-derive/src/lib.rs:608-636 | the schema descriptor byte for byte, one line per field in the order of the ids |
| `Descriptor.IndexTextExactly` | crates/csgdb-derive/src/lib.rs:638-667 | the index descriptor byte for byte, one line per pair up to the shorter list |
| `Descriptor.SchemaRoundTrip` | crates/csgdb-derive/src/lib.rs:608-636 | the decoder gives back collection, table, version and sorted fields, whatever the names contain |
| `Descriptor.IndexRoundTrip` | crates/csgdb-derive/src/lib.rs:638-667 | the decoder gives back everything an index descriptor was made from |
| `Descriptor.SameTextSameSchema` | crates/csgdb-derive/src/lib.rs:608-636 | two texts are equal if and only if collection, table and version are equal and the fields are a permutation of each other |
| `Descriptor.MatchMeansSameSchema` | crates/csgdb/src/collection.rs:1434-1448 | a registry match passes if and only if stored and expected schema agree up to field order, for any fingerprint function |
| `Derive.IndexColumns` | crates/csgdb-derive/src/lib.rs:430-449 | accepted if and only if the ids are distinct and known; gives the columns of the named fields in order |
| `Derive.DeriveIndexes` | crates/csgdb-derive/src/lib.rs:396-470 | accepted if and only if every declared index is legal and ids and names are distinct; descriptors and fingerprints are canonical |
| `Derive.LegalIndexExactly` | crates/csgdb-derive/src/lib.rs:396-470 | a legal index declaration written out: valid names, not reserved, and distinct known field ids, at least one |
| `Derive.LegalIndexesExactly` | crates/csgdb-derive/src/lib.rs:396-470 | a legal list of declarations: each legal, ids and names distinct |
| `Derive.DerivedIndexIsValid` | crates/csgdb/src/collection.rs:1530-1546 | an index the macro derives passes the run-time index checks |
| `Derive.FieldConstants` | crates/csgdb-derive/src/lib.rs:204-214 | true if and only if no two Rust field names, without `r#`, are equal in upper case |
| `Derive.ExpandCollection` | crates/csgdb-derive/src/lib.rs:74-184 | the macro accepts exactly valid names, a positive version, valid fields, legal indexes and distinct field constants, and then yields a schema that the run-time validator accepts, with canonical descriptors |
| `Catalogue.ValidatePhysicalTable` | crates/csgdb/src/collection.rs:1458-1492 | true if and only if the table has as many columns as declared fields and the first column of each field's name has declared type INTEGER, REAL, TEXT or BLOB as its kind, in any case, its nullability and its key flag |
| `Catalogue.ValidatePhysicalIndex` | crates/csgdb/src/collection.rs:1305-1348 | true if and only if the index is on the table, created by a statement, unique as declared, not partial, every key part named, ascending and binary, and the key parts, in order and completely, have the declared columns' names |
| `Catalogue.ValidatePhysicalIndexes` | crates/csgdb/src/collection.rs:1295-1303 | true if and only if every declared index exists as declared |
| `Catalogue.CreatedTableMatches` | crates/csgdb-derive/src/lib.rs:669-686 | the created table has exactly the declared columns, so it passes the physical check |
| `Catalogue.MadeIndexMatches` | crates/csgdb-derive/src/lib.rs:688-700 | the created index has exactly the declared key columns, so it passes the physical check |
| `Registration.RegisterMeans` | crates/csgdb/src/collection.rs:812-836 | the statements of a registration in closed form: already registered; created with table, row, indexes and index rows; or Storage where the engine cannot create or insert, and SchemaMismatch otherwise |
| `Registration.MigrateMeans` | crates/csgdb/src/collection.rs:853-898 | the statements of a migration in closed form: already applied, mismatch, applied with everything the target declares, or the error of the first check that fails, in the order of the checks |
| `Registration.RegistersExactly` | crates/csgdb/src/collection.rs:812-836 | a valid schema is newly registered if and only if its id is new, no other collection claims its table, its table and index names are not reserved, not taken by the other kind and free or already as declared, and no index row is taken |
| `Registration.MigratesExactly` | crates/csgdb/src/collection.rs:853-898 | a valid migration is applied if and only if it is not recorded, the source is fully in place, the callback left the target's unclaimed table, no obsolete index backs a constraint, every target index name is acceptable and new, dropped or as declared, and no other collection registered it |
| `Registration.DoneLeavesDeclared` | crates/csgdb/src/collection.rs:812-898 | on no store a success leaves a table that differs from a declared field in type, nullability or key, or lacks a declared index |
| `Registration.IndexRowsExactly` | crates/csgdb/src/collection.rs:1211-1232 | index rows match exactly with one row per declared index, name, uniqueness, fingerprint and descriptor equal, and no other |
| `Registration.ComparisonsExactly` | crates/csgdb/src/collection.rs:1400-1448 | the other comparisons written out: claimed tables, schema rows, migration records, valid migrations, retained indexes |
| `Registration.SameNameNeverRegisters` | crates/csgdb/src/collection.rs:1494-1548 | a schema whose index is named like its table passes the validator and registers in no store |
| `Session.Database.ExecuteAll` | crates/csgdb/src/collection.rs:1265-1293 | statements in order until one fails, each inside the open transaction or committing by itself |
| `Session.Database.RegisterCollection` | crates/csgdb/src/collection.rs:812-836 | the connection steps as `RegisterIn`, every statement refusable; `RegisterIsAtomic` says what that means |
| `Session.Database.MigrateCollection` | crates/csgdb/src/collection.rs:853-898 | the connection steps as `MigrateIn`, with a callback that may pass over refusals; `AppliedMeans` and `FailureLeavesStrays` say what that means |
| `Atomicity.RegisterIsAtomic` | crates/csgdb/src/collection.rs:812-836 | wherever the engine refuses, an error leaves the committed store as it was and a success is exactly `Register` |
| `Atomicity.RegisterUnrefused` | crates/csgdb/src/collection.rs:812-836 | an engine that refuses nothing lets registration answer exactly as `Register` and end its transaction |
| `Atomicity.RegisterErrors` | crates/csgdb/src/collection.rs:812-836 | InvalidSchema exactly for an invalid schema; otherwise the error is what the store itself gives, or Storage |
| `Atomicity.RegisterEnds` | crates/csgdb/src/collection.rs:812-836 | the transaction is over afterwards unless the engine refused its rollback |
| `Atomicity.MigrateUnrefused` | crates/csgdb/src/collection.rs:853-898 | an engine that refuses nothing lets a migration answer exactly as `Migrate` with what the callback's statements leave |
| `Atomicity.MigrateErrors` | crates/csgdb/src/collection.rs:853-898 | with the transaction kept, InvalidSchema and InvalidMigration exactly for invalid arguments; otherwise what `Migrate` gives, Storage, or MigrationMismatch where a mapped check was refused |
| `Atomicity.MigrateEnds` | crates/csgdb/src/collection.rs:853-898 | the transaction is over afterwards unless the engine refused its rollback |
| `Atomicity.KeptExactly` | crates/csgdb/src/collection.rs:888 | the transaction survives the callback if and only if the engine rolls it back at none of its statements |
| `Atomicity.AppliedMeans` | crates/csgdb/src/collection.rs:853-898 | a successful migration kept its transaction and is exactly `Migrate` with the physical schema the callback left |
| `Atomicity.FailureLeavesStrays` | crates/csgdb/src/collection.rs:888-896 | after a failed migration the committed store is the old one with exactly the statements that ran outside a transaction, in order; with the transaction kept there are none |
| `Atomicity.FailedMigrationExactly` | crates/csgdb/src/collection.rs:888-896 | a failed migration leaves the committed store as it was if and only if the transaction was open when the callback returned, or the schema's row was not updated and the statements outside the transaction undid each other |
| `Atomicity.KeptMigrationIsAtomic` | crates/csgdb/src/collection.rs:853-898 | a failed migration at none of whose callback statements the engine gives the transaction up changes nothing, whatever else is refused |
| `Atomicity.FailedRegistries` | crates/csgdb/src/collection.rs:892-894 | after a failed migration the registries are untouched, or the transaction was lost and the row of the collection is already the target's |
| `History.CallKeepsFaithfulExactly` | crates/csgdb/src/collection.rs:812-898 | under any engine, a call keeps registries and committed history in step if and only if no registry statement ran after a callback lost the transaction |
| `History.AlwaysFaithful` | crates/csgdb/src/collection.rs:812-898 | in every run of such calls, with any refusals and outside changes to the physical schema, the three registries are exactly what the committed history says |
| `History.VersionsIncrease` | crates/csgdb/src/collection.rs:1550-1566 | within a collection versions strictly increase along the history and no migration id commits twice |
| `History.ChainEndsAtRegistered` | crates/csgdb/src/collection.rs:1417-1432 | the chain of a collection ends at its registered schema, its index rows are that schema's, and no other collection has its table |
| `History.SuccessMatches` | crates/csgdb/src/collection.rs:812-898 | after any success the registry row, index rows, table and indexes are those of the requested schema |
| `History.InsertedExactly` | crates/csgdb/src/collection.rs:1234-1263 | the inserted index rows are exactly the declared ones, and no other collection's rows change |
| `History.ReapplyingExactly` | crates/csgdb/src/collection.rs:869-879 | in every reachable state, a committed migration applied again is AlreadyApplied if and only if no later one of the collection committed and the target's table and indexes are in place, else MigrationMismatch, the callback unused |
| `History.OnlyObsoleteIndexesGo` | crates/csgdb/src/collection.rs:1275-1293 | after a committed migration, an index outside the target exists exactly if the callback left it and the source did not declare it, and tables are as the callback left them |
| `Lapses.LostTransactionCommitsPieces` | crates/csgdb/src/collection.rs:888-896 | whenever a callback loses the transaction and returns Ok with a target in place, and nothing more is refused, the call fails with the migration fully recorded |
| `Lapses.SwallowedRollbackCommits` | crates/csgdb/src/collection.rs:853-898 | a concrete callback after which an error is reported and table, schema row and migration record are changed |
| `Lapses.SupersededMigrationIsRefused` | crates/csgdb/src/collection.rs:869-879 | a concrete run from version 1 to 3 after which the first migration is refused |
| `GroupCommit.ExecuteGroupJob` | crates/csgdb/src/pool.rs:1630-1651 | a job applies all its statements with counts in order, or leaves the working state as it was and reports the failed statement's error, or is fatal with the error of the control operation, which fails only where the engine is to blame; the committed state never moves |
| `GroupCommit.JobStates` | crates/csgdb/src/pool.rs:1630-1651 | the statements of a job run one after the other and the counts stand in their order |
| `GroupCommit.ExecuteJobs` | crates/csgdb/src/pool.rs:1586-1599 | without a fatal error the working state is the serial outcome of the responses |
| `GroupCommit.RefuseOk` | crates/csgdb/src/pool.rs:1610-1616 | a failed commit turns every Ok into its error and keeps the other errors |
| `GroupCommit.ExecuteGroupCommit` | crates/csgdb/src/pool.rs:1549-1628 | whatever fails, the committed state is the in-order fold of the jobs answered Ok and no job answered Err has any effect; committed holds exactly when some job is Ok; a failed statement refuses its own job with its own error, a failed COMMIT the other jobs with its error, any other failed control operation every job with its error; the transaction is over unless its rollback is refused; the metrics move once |
| `GroupCommit.Metrics.CountGroup` | crates/csgdb/src/pool.rs:1554-1566 | grouped jobs stay within transactions times the largest group |
| `GroupCommit.SerialIsFunctional` | crates/csgdb/src/pool.rs:1549-1628 | the responses determine the committed state |
| `GroupCommit.SerialCompose` | crates/csgdb/src/pool.rs:1653-1687 | outcomes of consecutive groups compose, so where groups were cut cannot be observed |
| `GroupCommit.RunGroups` | crates/csgdb/src/pool.rs:1653-1687 | over any run of groups the committed state is the serial outcome of all jobs in queue order, one response each, counters in balance |
| `WriteQueue.WriteQueue.TryPush` | crates/csgdb/src/pool.rs:1316-1360 | one critical section of push: admitted exactly when open with room, full exactly under Reject without room, timed out exactly after a wait whose time is up without room, asleep exactly when open without room otherwise; the job is appended exactly when admitted |
| `WriteQueue.WriteQueue.TakeFirst` | crates/csgdb/src/pool.rs:1366-1390 | an empty-handed writer takes one exclusive job or starts a group of groupable jobs, returns exactly when it must, and wakes the submitters |
| `WriteQueue.WriteQueue.Collect` | crates/csgdb/src/pool.rs:1397-1422 | the collecting loop takes the longest run of groupable jobs that fits, and returns exactly when the group is full, an exclusive job is next, the queue is closed or time is up |
| `WriteQueue.WriteQueue.Close` | crates/csgdb/src/pool.rs:1428-1433 | nothing is accepted afterwards, and both condition variables are notified |
| `WriteQueue.GatherIsMaximal` | crates/csgdb/src/pool.rs:1397-1422 | batch and queue keep all jobs in order; a returned batch is full, faces an exclusive job, or faces an empty queue; a waiting one is groupable, not full and the queue empty and open |
| `WriteQueue.PopFirstIsMaximal` | crates/csgdb/src/pool.rs:1366-1426 | the same for a batch started from the queue |
| `QueueRuns.AlwaysSafe` | crates/csgdb/src/pool.rs:1316-1433 | order, wakeups, accounting and ownership hold in every state of every interleaving |
| `QueueRuns.NoLostWakeup` | crates/csgdb/src/pool.rs:1316-1433 | asleep on not_full means full and accepting; a writer asleep beside a job means some submitter is between push and notify; never asleep after close |
| `QueueRuns.FirstInFirstOut` | crates/csgdb/src/pool.rs:1316-1433 | dequeued batches are a prefix of the accepted jobs, answers a prefix of those, one per job; the writer exits only when everything accepted is answered |
| `QueueRuns.BatchesAreMaximal` | crates/csgdb/src/pool.rs:1366-1426 | every batch pop returns is well formed and could not be extended |
| `QueueRuns.AdmissionExactly` | crates/csgdb/src/pool.rs:1316-1360 | in every state a submitter's section admits with room in an open queue whatever the policy, counts a refusal exactly for a full queue under Reject or a timeout, and sleeps or leaves otherwise |
| `QueueRuns.SubmissionKeepsPolicy` | crates/csgdb/src/pool.rs:1333-1352 | a submission keeps its kind and policy, and an expired timeout gives up on a queue still full |
| `QueueRuns.DequeueExactly` | crates/csgdb/src/pool.rs:1366-1426 | the writer sleeps on an open empty queue and leaves a closed one; with a job it returns exactly when the job is exclusive, the group full, an exclusive job next, the queue closed or time up |
| `QueueRuns.ExpiredGroupReturns` | crates/csgdb/src/pool.rs:1410-1422 | a waiting group is returned, extended at most, when its time is up |
| `QueueRuns.ExecutionCounted` | crates/csgdb/src/pool.rs:1549-1566 | executing a batch moves completed, transactions, largest and grouped jobs exactly as its kind and size say |
| `QueueRuns.Accounting` | crates/csgdb/src/pool.rs:605-621 | accepted = completed + queued + held; submitted + between push and count = accepted; answered only after counted; largest group within the limit; grouped within transactions times largest |
| `QueueProgress.NobodyStuck` | crates/csgdb/src/pool.rs:1316-1433 | when no thread can move, every submitter is idle and every accepted job answered |
| `QueueProgress.StepsPay` | crates/csgdb/src/pool.rs:1316-1433 | every step of a thread spends potential; only submissions, close and causeless wakeups add any |
| `QueueProgress.EverySubmissionEnds` | crates/csgdb/src/pool.rs:568-628 | from any reachable state the number of steps is bounded, and where they end every submission has ended |
| `WriterOrder.SerialStates` | crates/csgdb/src/pool.rs:1549-1628 | a serial outcome of a group is a chain of states, one per job, each job doing what it was answered |
| `WriterOrder.EffectsFollowAcceptance` | crates/csgdb/src/pool.rs:1653-1687 | in every reachable queue state, whatever the batches and failures, the jobs of the completed batches took effect one by one in the order of acceptance, each exactly as it was answered |
| `ReaderPool.ReadPool.Take` | crates/csgdb/src/pool.rs:1159-1177 | takes the connection on top of the stack and counts it, or nothing |
| `ReaderPool.ReadPool.TryCheckout` | crates/csgdb/src/pool.rs:1179-1196 | the same, counting a rejection when nothing is idle |
| `ReaderPool.ReadPool.GiveBack` | crates/csgdb/src/pool.rs:1237-1250 | returns the connection and uncounts it |
| `ReaderPool.AlwaysSafe` | crates/csgdb/src/pool.rs:1159-1250 | in every interleaving idle and leased connections are the original ones, the active count is the number of leases, and while anyone sleeps un-notified at least as many woken waiters are on their way as connections are idle |
| `ReaderPool.LeasesAreExclusive` | crates/csgdb/src/pool.rs:1159-1250 | no connection is leased twice or leased while idle |
| `ReaderPool.CheckoutExactly` | crates/csgdb/src/pool.rs:1159-1196 | a checkout leases the top connection; without one, checkout sleeps and try_checkout is refused and counted |
| `ReaderPool.LastBackFirstOut` | crates/csgdb/src/pool.rs:1237-1250 | the connection given back last goes out first, and the notified sleeper is woken |
| `ReaderPool.NobodyStuck` | crates/csgdb/src/pool.rs:1159-1250 | when no checkout and no return is possible, nobody waits and every connection is back |
| `ReaderPool.StepsPay` | crates/csgdb/src/pool.rs:1159-1250 | checkouts and returns spend potential, so they cannot go on forever without new requests |
| `PoolCalls.CallbackStack.Enter` | crates/csgdb/src/pool.rs:1074-1094 | refused exactly when the thread is already inside a read of the pool |
| `PoolCalls.CallbackStack.Leave` | crates/csgdb/src/pool.rs:1096-1105 | takes the pool out and keeps the other pools in order |
| `PoolCalls.RefusedExactly` | crates/csgdb/src/pool.rs:489-513 | a read is refused exactly inside a read of the pool, try_read also when nothing is idle, a write exactly from the writer or inside a read |
| `PoolCalls.WaitsEnd` | crates/csgdb/src/pool.rs:1159-1250 | a grant gives the lease, the end of a read gives it back, and finished jobs free exactly their submitters |
| `PoolCalls.AlwaysSafe` | crates/csgdb/src/pool.rs:489-513 | a thread inside a read waits for its one lease or holds it unblocked; the writer never waits for the queue or itself; every waiting submitter has a job |
| `PoolCalls.WaitingDescends` | crates/csgdb/src/pool.rs:578-583 | along every wait the rank falls: submitter, reader, running thread |
| `PoolCalls.NoWaitCycle` | crates/csgdb/src/pool.rs:1069-1105 | in every reachable state nobody waits for himself through any chain, chains have at most two waits, and lease holders are not blocked |
| `PoolCalls.NobodyStuck` | crates/csgdb/src/pool.rs:680-685 | when no wait, callback or job can end, no thread is blocked |
| `PoolCalls.StepsPay` | crates/csgdb/src/pool.rs:489-513 | ending a wait, a callback or a job spends potential; only new calls add any |
| `PoolCalls.EveryCallEnds` | crates/csgdb/src/pool.rs:680-685 | from any reachable state the number of such steps is bounded, and where they end nobody is blocked |
| `Hmac.AsciiEqual` | crates/csgdb-storage/src/crypto_provider_cache.c:91-109 | true if and only if the value, with A to Z lowered byte by byte, is the expected name |
| `Hmac.SelectAlgorithm` | crates/csgdb-storage/src/crypto_provider_cache.c:111-129 | the first digest parameter decides: sha1, sha256 and sha512 in any letter case select their digest, anything else and no parameter none |
| `Hmac.RfcTag` | crates/csgdb-storage/src/crypto_provider_cache.c:131-148 | the reference tag written out: pads 0x36 and 0x5c over a key block of 64, 64 or 128 bytes, hashed first when longer, and a tag of 20, 32 or 64 bytes |
| `Hmac.Context.Init` | crates/csgdb-storage/src/crypto_provider_cache.c:218-274 | succeeds exactly with a key and a known digest; then both digests hold the RFC's padded key; without a key nothing changes |
| `Hmac.Context.MakePads` | crates/csgdb-storage/src/crypto_provider_cache.c:255-260 | the in-place XOR gives the RFC's inner and outer pad for every key that fits, in bounds |
| `Hmac.Context.Update` | crates/csgdb-storage/src/crypto_provider_cache.c:276-286 | refused exactly before init or for a null input with a length; otherwise absorbs the input |
| `Hmac.Context.Final` | crates/csgdb-storage/src/crypto_provider_cache.c:288-320 | a null output changes nothing; too little room changes nothing; otherwise the tag is written and the rest of the buffer kept |
| `Hmac.Authenticate` | crates/csgdb-storage/src/crypto_provider_cache.c:218-320 | for every digest name in any letter case, key length and chunking, with size queries in between, the tag is the HMAC of section 2 of RFC 2104 |
| `Fault.NewRule` | crates/csgdb-storage/src/fault.rs:74-132 | a rule exists exactly for a positive occurrence and, for partial writes, a positive prefix |
| `Fault.Controller.Arm` | crates/csgdb-storage/src/fault.rs:175-181 | sets the rule, clears the match counter, keeps the statistics |
| `Fault.Controller.Disarm` | crates/csgdb-storage/src/fault.rs:184-190 | clears rule and match counter, keeps the statistics |
| `Fault.Controller.Intercept` | crates/csgdb-storage/src/fault.rs:230-250 | one operation is counted under its kind; one that the armed rule selects, on its target or on any, counts as a match; the occurrence-th match fires the rule and removes it |
| `Fault.OneShot` | crates/csgdb-storage/src/fault.rs:230-255 | after arming, over any operations, exactly the occurrence-th one of the rule's operation and target, any target for Any, is injected, with the rule's action |
| `Fault.CountersFollowTrace` | crates/csgdb-storage/src/fault.rs:230-250 | over any session the operation and match counters are the saturated counts of the trace |
| `Fault.InjectionsFollowArms` | crates/csgdb-storage/src/fault.rs:175-250 | injections are counted and never outnumber arms, a pending rule included |
| `Fault.File.IoWrite` | crates/csgdb-storage/src/fault.rs:452-485 | without an injection the real write and its code; an injected error writes nothing; a partial write writes the first min(amount, prefix) bytes and reports an error, the real write's own error first |
| `Maintenance.Writer.RecordCheckpoint` | crates/csgdb/src/pool.rs:1511-1547 | counts runs, automatic runs and incomplete ones, and raises the published pressure flag exactly when the frames left exceed the soft limit, with an event on the rising edge |
| `Maintenance.Writer.AfterWrite` | crates/csgdb/src/pool.rs:1491-1509 | attempts a checkpoint exactly when enabled and under pressure or at the interval, and then starts counting anew |
| `Maintenance.Writer.Run` | crates/csgdb/src/pool.rs:734-790 | one writer job steps runtime and metrics; the configuration jobs reset both, refused ones change nothing |
| `Maintenance.MaintenanceHolds` | crates/csgdb/src/pool.rs:1470-1547 | over any job sequence: writes since the last attempt below the interval, attempts = automatic runs + failures, pressure events = rising edges, published flags = runtime flags |
| `Maintenance.PressureIsPressing` | crates/csgdb/src/pool.rs:1491-1547 | under pressure every counted write attempts; only a checkpoint within the soft limit ends the pressure |
| `Maintenance.AttemptsExactly` | crates/csgdb/src/pool.rs:1491-1547 | over any job sequence a checkpoint is attempted exactly at a counted write that finds pressure or completes the interval, and the pressure flag is what the last recorded checkpoint left against the soft limit |
| `Maintenance.ShareIsLargest` | crates/csgdb/src/pool.rs:1730-1744 | the share is the largest positive multiple of 1024 within the cache and, times all connections, within the budget; refused exactly when none exists; the later round-up keeps it |

## Left out

- SQLite, SQLCipher and OpenSSL internals: the engine is an abstract transaction, table and catalogue, SHA-1/256/512 any function of the right output size, and the low-level digest calls always succeed.
- SQL beyond the emitted subset; case-insensitive names and the double-quoted-string fallback: names, the reserved prefix `sqlite_` included, are compared exactly.
- The `FieldValue` codecs and their error codes: per-type conversions that would only add easy members. Reals are exact, NaN and infinities separate values.
- Crud.InsertActs: the primary key is its only constraint; `CrudRuns.CallsRefineMap` adds the conflicts of unique indexes.
- Crud.UpdateActs: the primary key is its only constraint; `CrudRuns.CallsRefineMap` adds the conflicts of unique indexes.
- Batches and migration callbacks that issue their own BEGIN, COMMIT, ROLLBACK or SAVEPOINT, callbacks that write the registry tables, and application code that commits a transaction a failed call left open: assumed away.
- Hand-written `Collection` implementations whose SQL constants disagree with their schema: the statements are those the macro derives.
- Panics in callbacks, poisoned locks, thread spawning, shutdown of the reader pool and the `recv` error of a stopped writer.
- Real clocks and memory ordering: deadlines are choices, atomics sequentially consistent, and the 64-bit metrics of the pool do not wrap.
- `PoolCalls` abstracts each wait to "blocked until its condition holds"; that the condition variables deliver this is what `QueueRuns`, `QueueProgress` and `ReaderPool` prove. It covers one pool; cycles through two pools are outside it.
- Exclusive write callbacks: `GroupCommit` runs grouped jobs only, and in `WriterOrder` an exclusive callback may do anything to the database.
- The registered indexes of a collection are compared as a map by index id, where the code compares two lists sorted by id.
- The C ABI, open flags and key resolution, the VFS forwarding callbacks, the proc-macro token generation, benchmarks and the command line.
