# Verified model of the project-management server's stateful core

The server keeps projects, items, workflows and users in one SQLite database. Most of it passes
requests on; five parts keep state under rules that hold only if every step of every run respects
them. This project models those parts in Dafny and proves what they keep.

* **Connection, transaction, locks** (`sqlite.dfy`, `connection.dfy`, `locking.dfy`, `lock_runs.dfy`,
  `database.dfy`, `holders.dfy`, `two_connections.dfy`, `path.dfy`). All threads share one connection with a `shared_mutex`, a thread-local flag that skips
  locking inside a transaction, and transaction objects that roll back when they go out of scope.
  `locking.dfy` is a step relation over threads in which any statement may fail; `connection.dfy` is the
  same code as classes for one thread.
* **Migrations** (`migrations.dfy`, `migration_answers.dfy`, `migration_runs.dfy`, `defaults*.dfy`, `migrator.dfy`). A sorted
  registry of versioned migrations, each run in its own transaction. The second migration is modelled
  row by row, and both are put under the manager.
* **Token revocation** (`auth.dfy`, `revocation.dfy`). A blacklist that forgets expired entries is
  compared, step by step and across threads, with one that never forgets.
* **Workflow graph** (`store.dfy`, `schema.dfy`, `services.dfy`, `answers.dfy`, `deletion_answers.dfy`, `graph*.dfy`). Tables of rows, all
  foreign keys of the first migration, deletes that cascade through a work list, and the services for
  workflows, states and edges on top.
* **Listings and partial updates** (`listing.dfy`, `texts.dfy`, `times.dfy`, `projects.dfy`,
  `phases.dfy`, `phase_answers.dfy`). Paging over an order the engine may choose afresh for each query, search columns in
  lower case, updates of the given fields only, and the phase's way through JSON and back.

A failure of a statement, an exception, or an engine error is a parameter of the step or an outcome of
the function; what is assumed of a failing statement is said under "Left out". The clock, SHA-256, the JWT verifier and lower-casing are
parameters with short contracts: the verifier's answer carries an expiry that depends on the token
alone, and it accepts nothing after that moment (`exp` in section 4.1.4 of RFC 7519); lower-casing reads
up to the first NUL and leaves no ASCII capital.

## What turned out different from what one might expect

* The comment at `vault-server/src/storage/idatabase.h:76` says that a transaction object's destructor
  neither commits nor rolls back; it does roll back, and the model follows the code. If that ROLLBACK
  fails, the engine stays inside a transaction that nobody owns and nothing is made durable on the
  connection any more (`Locking.LeakFreezesDatabase`).
* A test expects a nested `beginTransaction()` to throw (`tests/storage/test_sqlite_transaction.cpp:194`).
  The code locks a mutex that the thread already holds, before any statement runs. The language leaves
  this undefined; the model takes it as waiting for ever (`Locking.NestingBlocksForever`).
* Writes made after `commit()` and before the transaction object is gone are durable at once, and not
  part of the transaction (`Connections.AllOrNothing`).
* A shutdown while somebody holds the connection lets a second one be opened beside it
  (`Databases.EarlyShutdownSplits`). The flag that skips locking belongs to the thread, so a thread inside
  a transaction of one connection then gets past the mutex of the other (`TwoConnections.GetsInIff`).
* `upgradeAll` counts in `unsigned`. With a largest version of 2^32 - 1 it goes on with version 0 after a
  complete upgrade, and reports a missing migration if there is none (`MigrationRuns.LoopIsOnes`); with
  every unsigned version registered it ends only by a failure (`MigrationRuns.LoopEndsIff`).
* `deleteWorkflow` looks at the states of items, not at their types; items whose type belongs to the
  workflow go with it (`GraphDeletes.ItemsSurvive` says exactly when none does, `GraphDeletes.DeletedItem`
  has one that goes).
* Workflow captions are unique only through checks that read before they write. Two creations, or two
  updates, of two threads can break that (`GraphThreads.CaptionRace`, `GraphThreads.UpdateRace`;
  `GraphThreads.CaptionsStayDistinctIff` says exactly when a run does); the rest of the graph's structure
  survives every interleaving.
* Text is handed to the engine up to its first NUL, so `"a\0b"` is refused as a caption where `"a"` exists
  (`ServiceAnswers.WorkflowCreated`).
* A text that looks like a date and time is not a string for the result set, and reading its row throws.
  A workflow or a state with such a text can be created, but then it can neither be changed nor deleted,
  and the workflow of such a state stays too (`ServiceAnswers.UnreadableRowsStay`).
* The downgrade of the second migration deletes every state, edge and standard day
  (`DefaultsRoundTrip.DownAfterUp` says exactly when it restores what was there). AUTOINCREMENT counters
  are not part of that: they keep growing, so a second upgrade gives new ids.
* A clock that is set back readmits revoked tokens that have been evicted; `Revocation.TickIsSafeIff` says
  how far it can be set back.
* Paging over states can show a row twice and another never (`Listing.StatesPageIff`).

## Model

| member | source | states |
|---|---|---|
| Locking.InvKept | vault-server/src/storage/sqlite/sqlite_transaction.cpp:9-67 | every step of every thread keeps: flag set iff the thread is between setting and clearing it, mutex owner and readers as the threads' positions say, an open engine transaction belongs to the exclusive owner and holds exactly its writes |
| Locking.OthersShutOut | vault-server/src/storage/sqlite/sqlite_connection.h:34-57 | while a transaction object owns the mutex, no step of another thread that takes or runs under the mutex is possible |
| Locking.OwnerRunsAlone | vault-server/src/storage/sqlite/sqlite_transaction.cpp:9-43 | in every interleaving, from taking the mutex until giving it back all execute, prepare, step, finalize, reset and lastInsertId steps are the owner's |
| Locking.FlagMeansExclusive | vault-server/src/storage/sqlite/sqlite_connection.h:38-45 | in every reachable state a set flag means that the thread holds the mutex exclusively and no other thread is inside a locked operation, so a skipped lock is never missing |
| Locking.StepPublishes | vault-server/src/storage/sqlite/sqlite_connection.cpp:94-112 | what a single step adds to the durable content: nothing, one write outside transactions, or all the writes of the transaction that commits |
| Locking.CommittedInBlocks | vault-server/src/storage/sqlite/sqlite_transaction.cpp:45-55 | the durable content of every run is the initial one plus those blocks in order, over all threads |
| Locking.OpenTransactionSeesItself | vault-server/src/storage/sqlite/sqlite_transaction.cpp:9-43 | whatever other threads do, an open transaction sees the content found by BEGIN plus its own successful writes, and leaves the durable content alone |
| Locking.AllOrNothing | vault-server/src/storage/sqlite/sqlite_transaction.cpp:45-67 | in any interleaving COMMIT leaves the BEGIN content plus all and only this thread's writes, ROLLBACK leaves the BEGIN content |
| Locking.LeakFreezesDatabase | vault-server/src/storage/sqlite/sqlite_transaction.cpp:27-43 | after a destructor's swallowed ROLLBACK failure no step changes the durable content |
| Locking.NoRelocking | vault-server/src/storage/sqlite/sqlite_connection.h:38-45 | a thread that waits for the mutex holds it in no mode, and an idle thread has no lock and no flag |
| Locking.HolderMoves | vault-server/src/storage/sqlite/sqlite_statement.cpp:12-70 | whoever holds the mutex, shared or exclusive, and has not nested, can take its next step |
| Locking.MovesUnlessWaiting | vault-server/src/storage/sqlite/sqlite_connection.h:34-57 | any thread that neither waits for the mutex nor has nested can take a step |
| Locking.NoDeadlock | vault-server/src/storage/sqlite/sqlite_connection.h:34-57 | in every reachable state without nesting in which some thread is not idle, some thread that is not idle can move |
| Locking.NestingBlocksForever | vault-server/src/storage/sqlite/sqlite_transaction.cpp:9-12 | once a thread has nested a transaction, it and everyone waiting for the mutex stay where they are in every continuation |
| LockRuns.AcquiresIff | vault-server/src/storage/sqlite/sqlite_connection.h:34-57 | a locked operation gets past the mutex iff its thread is inside a transaction, or no other thread is at a point where it has the mutex exclusively and, for an exclusive operation, none where it has it shared; readers never keep each other out |
| LockRuns.LocksIff | vault-server/src/storage/sqlite/sqlite_transaction.cpp:9-12 | a transaction gets the mutex iff no other thread has it in either mode |
| LockRuns.WholeTransactionRuns | vault-server/src/storage/sqlite/sqlite_transaction.cpp:9-67 | from a free mutex an idle thread can run a whole transaction with any writes, to commit(), rollback() or the destructor alone: all writes or none are left, thread and mutex are as before, nothing else has changed |
| LockRuns.PlainRuns | vault-server/src/storage/sqlite/sqlite_connection.cpp:94-112 | outside transactions a query runs when no writer is inside and a write when nobody is, at once and for good, and mutex and other threads are as before |
| Connections.Connection.Execute | vault-server/src/storage/sqlite/sqlite_connection.cpp:94-112 | the engine moves by the statement or stays, the lock and the flag are as before, also on failure |
| Connections.Connection.BeginTransaction | vault-server/src/storage/sqlite/sqlite_transaction.cpp:9-25 | success gives an active transaction owning lock and flag; a failing BEGIN gives both back |
| Connections.Transaction.Destroy | vault-server/src/storage/sqlite/sqlite_transaction.cpp:27-43 | an active transaction is rolled back, and lock and flag are given back whether or not that fails |
| Connections.RunTransaction | vault-server/src/storage/sqlite/sqlite_transaction.cpp:9-67 | a client's whole transaction, with failures anywhere, moves the engine by Lifetime and answers each call as specified |
| Connections.AllOrNothing | vault-server/src/storage/sqlite/sqlite_transaction.cpp:9-67 | for every sequence of calls and failures: all writes before the first commit that returns normally, none if a rollback comes first or nothing ends it, plus writes after that end; only a failing ROLLBACK in the destructor leaves the transaction open |
| Connections.OnlyTheFirstEndSucceeds | vault-server/src/storage/sqlite/sqlite_transaction.cpp:45-67 | a commit or rollback returns normally iff it is the first one that does not fail |
| Databases.SqliteDatabase.GetConnection | vault-server/src/storage/sqlite/sqlite_database.cpp:53-75 | shares the live connection and counts the new holder, opens a new one when there is none, throws when not initialized or when opening fails; `ConnectionHolders` says which happens when |
| Databases.SharedByAll | vault-server/src/storage/sqlite/sqlite_database.cpp:25-75 | in every run of initialize, connection, releases and orderly shutdowns at most one connection is live and every holder has the one that the next caller gets |
| Databases.OpensOnlyWhenAlone | vault-server/src/storage/sqlite/sqlite_database.cpp:53-75 | a connection is opened iff nobody holds one, and one more call keeps all holders together iff they were |
| Databases.EarlyShutdownSplits | vault-server/src/storage/sqlite/sqlite_database.cpp:44-51 | a shutdown while a connection is held, then initialize and connection(), gives two live connections |
| ConnectionHolders.ConnectAnswers | vault-server/src/storage/sqlite/sqlite_database.cpp:25-75 | in every run that releases only what is held, holders of a connection counted as answers that gave it out minus its releases: connection() gives the last opened one since initialize out again iff it has a holder left, a connection never given out before if not, and throws iff not initialized or opening fails |
| ConnectionHolders.HoldersShare | vault-server/src/storage/sqlite/sqlite_database.cpp:53-75 | with orderly shutdowns two connections with holders are one, and it is what the next caller gets |
| TwoConnections.LoyalRunsAreIsolated | vault-server/src/storage/sqlite/sqlite_connection.h:34-57 | with any number of connections: as long as no thread uses one while its flag is set for another, every transaction is alone on its connection, in every run |
| TwoConnections.GetsInIff | vault-server/src/storage/sqlite/sqlite_connection.h:38-45 | while another thread's transaction owns the connection, a call on it gets past the mutex iff the caller's flag is set, and then the transaction is not alone |
| TwoConnections.ForeignCallBreaks | vault-server/src/storage/sqlite/sqlite_connection.h:95-95 | wherever a thread can make such a call, two steps break the isolation |
| TwoConnections.ForeignCallIsReached | vault-server/src/storage/sqlite/sqlite_connection.h:95-95 | two threads that begin transactions on two connections reach such a state |
| Paths.NormalizePath | vault-server/src/storage/sqlite/sqlite_connection.cpp:23-39 | the rewriting loop ends and yields the string with every run of slashes collapsed and one leading "./" dropped |
| Paths.CollapseHasNoDouble | vault-server/src/storage/sqlite/sqlite_connection.cpp:28-33 | the collapsed path has no "//" |
| Paths.RewriteKeepsCollapse | vault-server/src/storage/sqlite/sqlite_connection.cpp:30-33 | rewriting any one "//" keeps what the path collapses to |
| Paths.NormalizeMeansTheSame | vault-server/src/storage/sqlite/sqlite_connection.cpp:23-39 | the result has no "//", is absolute iff the input is, and names the same components but for one leading "." |
| Paths.ComponentsOfJoined | vault-server/src/storage/sqlite/sqlite_connection.cpp:23-39 | the components that are kept are the names a path was put together from |
| Paths.NormalizeTwice | vault-server/src/storage/sqlite/sqlite_connection.cpp:35-39 | a second pass changes nothing iff the first result does not start with "./" |
| Migrations.InsertSortedSorts | tools/migrator/src/migration_manager.cpp:18-48 | registering a new version keeps the list sorted and adds just that migration |
| Migrations.SortedUnique | tools/migrator/src/migration_manager.cpp:36-48 | there is one sorted list of given migrations, so the sorting algorithm does not matter |
| Migrations.MaxIsGreatest | tools/migrator/src/migration_manager.cpp:288-295 | the version of the last entry is the greatest registered one |
| Migrations.MigrationManager.RegisterMigration | tools/migrator/src/migration_manager.cpp:18-48 | refuses a version already registered, else inserts in order |
| Migrations.MigrationManager.FindMigration | tools/migrator/src/migration_manager.cpp:156-166 | the loop finds the migration of the version or that there is none |
| Migrations.AttemptApplies | tools/migrator/src/migration_manager.cpp:188-206 | a successful migration has applied all its statements in order and stored the version with them; a failing one leaves durable content and version |
| MigrationAnswers.AttemptSucceedsIff | tools/migrator/src/migration_manager.cpp:188-206 | a migration succeeds iff no transaction was left open, nothing fails and every statement applies; then content and version are exactly those, else the durable ones are as before |
| MigrationAnswers.LeftOpenIff | tools/migrator/src/migration_manager.cpp:188-206 | the engine is left inside a transaction iff the migration fails after BEGIN and both the explicit ROLLBACK and the destructor's fail; any other failure leaves it exactly as it was |
| Migrations.MigrationManager.RunScript | tools/migrator/src/migration_manager.cpp:193-194 | the loop over the statements stops at the first that fails or that the engine refuses |
| Migrations.MigrationManager.Migrate | tools/migrator/src/migration_manager.cpp:188-206 | statements, version and COMMIT through the connection and transaction objects, ROLLBACK and an exception on any failure, refine the function Attempt |
| Migrations.MigrationManager.RunUpgradeOne | tools/migrator/src/migration_manager.cpp:168-207 | upgradeOne with each of its exceptions |
| Migrations.MigrationManager.RunUpgradeAll | tools/migrator/src/migration_manager.cpp:209-248 | the loop with its unsigned counter, whenever it ends at all |
| Migrations.MigrationManager.RunDowngradeOne | tools/migrator/src/migration_manager.cpp:250-286 | downgradeOne with each of its exceptions |
| MigrationAnswers.VersionIsWrapped | tools/migrator/src/migration_manager.cpp:99-120 | the version is the stored number in unsigned arithmetic |
| MigrationAnswers.FoundIff | tools/migrator/src/migration_manager.cpp:156-166 | the look-up finds a migration iff one of that version is registered |
| MigrationAnswers.DowngradeOneAnswers | tools/migrator/src/migration_manager.cpp:250-286 | already at 0 iff the version is 0; not found iff it is above 0 and unregistered; done iff its down goes through, which leaves exactly down applied and the version one less; failed otherwise; what is not done changes nothing durable |
| MigrationAnswers.UpgradeOneAnswers | tools/migrator/src/migration_manager.cpp:168-207 | latest iff no greater version is registered; not found iff one is but not the next; done iff the next one's up goes through, which leaves exactly up applied and that version; failed otherwise; what is not done changes nothing durable |
| MigrationAnswers.NothingToDo | tools/migrator/src/migration_manager.cpp:209-220 | an unreadable version ends every call, and upgradeAll ends at once when no greater version is registered |
| MigrationRuns.OpenEngineStays | tools/migrator/src/migration_manager.cpp:188-206 | after a failed ROLLBACK has left the engine inside a transaction no call changes anything |
| MigrationRuns.VersionDescribesContent | tools/migrator/src/migration_manager.cpp:123-286 | for any relation of versions to contents that each up and down respects, statements refused or not: after any calls that end, with failures anywhere, the durable content is right for the durable version |
| MigrationRuns.ContentIsUpToVersion | tools/migrator/src/migration_manager.cpp:168-286 | from version 0, with some unsigned version unregistered and each down undoing its up, the durable content is exactly that of up of versions 1 to v in order, v the durable version, all of them registered |
| MigrationRuns.LoopIsOnes | tools/migrator/src/migration_manager.cpp:209-248 | for any registry, upgradeAll leaves the same content, version and failure as repeated upgradeOne, within one round a version and one more; after a complete upgrade to 2^32 - 1 it has done the same and goes on with version 0 |
| MigrationRuns.UpgradeAllTells | tools/migrator/src/migration_manager.cpp:209-248 | on success of upgradeAll the durable version is the largest, below 2^32 - 1; otherwise it is the one before the version that the exception names, in unsigned arithmetic |
| MigrationRuns.LoopEndsIff | tools/migrator/src/migration_manager.cpp:221-247 | the loop ends iff some unsigned version has no migration or a migration fails in one of its rounds |
| Defaults.DoUp | tools/migrator/src/migrations_sqlite/v2_default_data.h:37-317 | the inserts one after the other, the states and edges built from the ids that lastInsertId returned, are the function Up, and fail when it does |
| Defaults.DoDown | tools/migrator/src/migrations_sqlite/v2_default_data.h:319-336 | the five DELETE statements, each a cascade row by row, are the function Down |
| DefaultsProofs.UpWorks | tools/migrator/src/migrations_sqlite/v2_default_data.h:37-317 | on a sound database without the administrator's login and e-mail the upgrade succeeds, adds exactly the default rows under new ids, and leaves it sound |
| DefaultsProofs.UpWorksIff | tools/migrator/src/migrations_sqlite/v2_default_data.h:43-65 | the upgrade fails iff login or e-mail address of the administrator is taken |
| Defaults.DefaultStatesAre | tools/migrator/src/migrations_sqlite/v2_default_data.h:90-193 | five states numbered in order, done from 0 to 100, the last and no other archived |
| Defaults.DefaultTransitions | tools/migrator/src/migrations_sqlite/v2_default_data.h:195-236 | for every pair of the five: an edge iff it goes to the next state, back from the review, or from work past it |
| Defaults.DefaultWeek | tools/migrator/src/migrations_sqlite/v2_default_data.h:238-314 | every weekday once, Monday to Friday as work days from 09:00 to 18:00 with an hour off |
| DefaultsRoundTrip.DownIsBare | tools/migrator/src/migrations_sqlite/v2_default_data.h:319-336 | after the downgrade there are no standard days, edges, states and default workflows, whoever made them |
| DefaultsRoundTrip.DownAfterUp | tools/migrator/src/migrations_sqlite/v2_default_data.h:37-336 | down after up restores every row of every table iff there were no standard days, edges, states and no workflow of the default caption |
| Migrator.UpApplies | tools/migrator/src/migrations_sqlite/v2_default_data.h:37-317 | the twenty INSERT statements, each refused by the engine or applied, come to the upgrade |
| Migrator.DownApplies | tools/migrator/src/migrations_sqlite/v2_default_data.h:319-336 | the five DELETE statements come to the downgrade, and are never refused |
| Migrator.MigratedDatabaseIsSound | tools/migrator/src/migration_manager.cpp:168-286 | the manager alone, from a database without tables, after any calls and failures of single statements: version 0 has no tables, 1 empty tables, 2 the default data with a sound workflow graph and distinct captions |
| Migrator.ServerAndMigratorKeepSound | tools/migrator/src/migration_manager.cpp:168-286 | every run that mixes calls of the manager with service calls of the server and failing statements of both: no tables at version 0, a sound workflow graph at versions 1 and 2 |
| Auth.ExtractIsExact | vault-server/src/api/middleware/impl/auth_middleware.cpp:145-158 | a non-empty result is the token of the header iff the header is "Bearer", white space and token characters |
| Auth.CharactersAre | vault-server/src/api/middleware/impl/auth_middleware.cpp:149-149 | the character classes of the pattern, character by character |
| Auth.AuthMiddleware.IsTokenInvalidated | vault-server/src/api/middleware/impl/auth_middleware.cpp:124-143 | looks up and drops an entry whose expiry is past |
| Auth.AuthMiddleware.InvalidateToken | vault-server/src/api/middleware/impl/auth_middleware.cpp:94-122 | stores an accepted token with its expiry and sweeps at every tenth |
| Auth.AuthMiddleware.ValidateRequest | vault-server/src/api/middleware/impl/auth_middleware.cpp:26-64 | accepts iff the header has a token that is neither on the blacklist at the first moment nor refused by the verifier at the second |
| Auth.BlacklistStaysSmall | vault-server/src/api/middleware/impl/auth_middleware.cpp:94-143 | in every sequence of calls the blacklist holds at most nine entries more than the last sweep left, each accepted once with that expiry |
| Revocation.StepSimulates | vault-server/src/api/middleware/impl/auth_middleware.cpp:94-143 | each step of the real middleware, and each setting of the clock that fits, is one of the middleware that never forgets, in lock step |
| Revocation.SteadyFits | vault-server/src/api/middleware/impl/auth_middleware.cpp:132-140 | a clock that does not go back always fits |
| Revocation.DecidesAsIfNothingForgotten | vault-server/src/api/middleware/impl/auth_middleware.cpp:26-64 | for every interleaving of requests, revocations and sweeps, with every setting of the clock that fits, both middlewares allow the same runs, answers included |
| Revocation.RevokedThenRejected | vault-server/src/api/middleware/impl/auth_middleware.cpp:26-64 | a request begun on a token after it was revoked is rejected, whatever was evicted in between |
| Revocation.InvalidatedThenRejected | vault-server/src/api/middleware/impl/auth_middleware.cpp:94-122 | the same from the step of invalidateToken that stores the token |
| Revocation.TokenIsRevoked | vault-server/src/api/middleware/impl/auth_middleware.cpp:94-122 | an accepted token can be revoked from any state with an idle thread, and is then on both lists with its expiry; one that is not accepted changes nothing |
| Revocation.OthersAreServed | vault-server/src/api/middleware/impl/auth_middleware.cpp:26-64 | a request for a token that is not on the blacklist gets the verifier's answer and no other |
| Revocation.ClockSetBackReadmits | vault-server/src/api/middleware/impl/auth_middleware.cpp:133-140 | for every token and every pair of times, an evicted token is accepted at the other time iff the verifier accepts it then, which is at or before its expiry |
| Revocation.UnfitTickTells | vault-server/src/api/middleware/impl/auth_middleware.cpp:124-143 | set to a time at which the verifier accepts a token that is forgotten, missed, or about to be swept away, the clock makes a run that only the real middleware takes |
| Revocation.TickIsSafeIff | vault-server/src/api/middleware/impl/auth_middleware.cpp:124-143 | with a thread idle and no sweep under way, a setting of the clock fits iff both middlewares agree on every run from it on |
| Store.DoomedIsClosed | tools/migrator/src/migrations_sqlite/v1_initial_schema.h:186-209 | the rows that a delete takes contain the selected ones and everything that cascades from them |
| Store.DoomedIsLeast | tools/migrator/src/migrations_sqlite/v1_initial_schema.h:186-209 | and are the least such set |
| Store.DeleteKeepsIntegrity | tools/migrator/src/migrations_sqlite/v1_initial_schema.h:186-209 | a delete under any schema of CASCADE and SET NULL keys leaves no reference that leads nowhere |
| Store.DeleteUnreferenced | tools/migrator/src/migrations_sqlite/v1_initial_schema.h:186-209 | rows that nothing refers to go alone and nothing else changes |
| Store.Database.DeleteRow | vault-server/src/repo/sqlite/sqlite_workflow_repository.cpp:207-229 | a work list that removes one row at a time, in any order, ends with exactly the least closed set gone and the SET NULL references to it cleared |
| Store.DeleteTwice | tools/migrator/src/migrations_sqlite/v2_default_data.h:319-336 | one delete after the other is one delete of both selections |
| Store.DeleteRows | tools/migrator/src/migrations_sqlite/v2_default_data.h:319-336 | a DELETE of several rows is the cascade of them all, whatever the order |
| SchemaV1.DeclaredKeys | tools/migrator/src/migrations_sqlite/v1_initial_schema.h:62-523 | the foreign keys column by column are those that the 39 tables declare one by one, with parent and action |
| SchemaV1.UsageCoversItemType | vault-server/src/repo/sqlite/sqlite_item_type_repository.cpp:426-457 | the usage count over four tables is zero iff no row of any table refers to the item type |
| SchemaV1.UsageCoversFieldType | vault-server/src/repo/sqlite/sqlite_field_type_repository.cpp:427-453 | the usage count over two tables is zero iff no row of any table refers to the field type |
| SchemaV1.ItemTypeRemovalIsExact | vault-server/src/repo/sqlite/sqlite_item_type_repository.cpp:330-358 | removal succeeds iff the item type is there and unreferenced, and then changes exactly that row |
| SchemaV1.FieldTypeRemovalIsExact | vault-server/src/repo/sqlite/sqlite_field_type_repository.cpp:333-361 | the same for field types |
| SchemaV1.RemoveItemType | vault-server/src/repo/sqlite/sqlite_item_type_repository.cpp:330-358 | the guarded delete on the database is that removal |
| SchemaV1.RemoveFieldType | vault-server/src/repo/sqlite/sqlite_field_type_repository.cpp:333-361 | the guarded delete on the database is that removal |
| Services.WorkflowService.DoCreate | vault-server/src/logic/impl/workflow_service.cpp:49-81 | valid and of a new caption: inserted; else nothing changes |
| Services.WorkflowService.DoUpdate | vault-server/src/logic/impl/workflow_service.cpp:83-127 | the given fields replaced unless a changed caption exists already |
| Services.WorkflowService.CanDelete | vault-server/src/logic/impl/workflow_service.cpp:168-185 | reads all states of the workflow and looks at one after the other until an item uses one; `DeletionAnswers` says what that comes to |
| Services.WorkflowService.DoDelete | vault-server/src/logic/impl/workflow_service.cpp:129-166 | 404, 409, an exception or the delete; `DeletionAnswers` says which and `GraphDeletes` what goes |
| Services.StateService.DoCreate | vault-server/src/logic/impl/state_service.cpp:52-84 | valid and of an existing workflow: inserted |
| Services.StateService.DoUpdate | vault-server/src/logic/impl/state_service.cpp:86-127 | the given fields replaced, never the workflow; a used state is not archived |
| Services.StateService.DoDelete | vault-server/src/logic/impl/state_service.cpp:129-166 | 404, 409 for a used or connected state, or the cascade |
| Services.EdgeService.DoCreate | vault-server/src/logic/impl/edge_service.cpp:49-92 | both ends checked, no edge of the pair there yet: inserted |
| Services.EdgeService.DoDelete | vault-server/src/logic/impl/edge_service.cpp:94-118 | 404 or the cascade |
| ServiceAnswers.TextsInBounds | vault-server/src/logic/impl/state_service.cpp:191-226 | valid is a caption of 1 to 255 characters, a description of at most 1000, a weight from 0 to 100, and for a state a workflow |
| ServiceAnswers.WorkflowCreated | vault-server/src/logic/impl/workflow_service.cpp:49-81 | created iff valid and no workflow has the caption as the engine gets it, up to the first NUL; one new row with the texts so cut, which is the answer unless reading it throws |
| ServiceAnswers.StateCreated | vault-server/src/logic/impl/state_service.cpp:52-84 | a state is created iff valid and its workflow is there and can be read; then the row has what was given, zero or false for the rest; an exception iff valid and the workflow cannot be read |
| ServiceAnswers.EdgeCreated | vault-server/src/logic/impl/edge_service.cpp:49-92 | created iff both states are there, readable, in one workflow, not archived and not joined; the edges listed for that workflow grow by it, those of others stay |
| ServiceAnswers.StateUpdated | vault-server/src/logic/impl/state_service.cpp:86-127 | changes the row iff it is there and readable, something is given and no used state would be archived; then it is as before overlaid with what was given, texts cut at the first NUL, but the workflow; all other rows unchanged |
| ServiceAnswers.WorkflowUpdated | vault-server/src/logic/impl/workflow_service.cpp:83-127 | with distinct captions, changes the row iff it is there and readable, something is given and no other workflow, nor itself by a text that goes on after a NUL, is in the way; then it is as before overlaid with what was given |
| ServiceAnswers.StateSentBack | vault-server/src/repo/sqlite/sqlite_state_repository.cpp:191-253 | updating a state with what was read from it changes nothing |
| ServiceAnswers.CreateThenDeleteWorkflow | vault-server/src/logic/impl/workflow_service.cpp:49-166 | deleting the workflow just created restores every row of every table iff its texts can be read; else it throws and changes nothing |
| ServiceAnswers.CreateThenDeleteState | vault-server/src/logic/impl/state_service.cpp:52-166 | the same for a state |
| ServiceAnswers.CreateThenDeleteEdge | vault-server/src/logic/impl/edge_service.cpp:49-118 | deleting the edge just created restores every row of every table |
| DeletionAnswers.WorkflowDeleteAnswers | vault-server/src/logic/impl/workflow_service.cpp:129-185 | in terms of rows and columns alone: deleted iff the workflow and all its states are there to read and no item is in one of them, 409 iff they are and an item is, 404 iff there is no such row, an exception otherwise; what is not deleted changes nothing |
| DeletionAnswers.StateDeleteAnswers | vault-server/src/logic/impl/state_service.cpp:129-189 | the same for a state: 409 iff it can be read and an item is in it or an edge begins or ends there |
| DeletionAnswers.EdgeDeleteAnswers | vault-server/src/logic/impl/edge_service.cpp:94-118 | 404 iff there is no such edge, else exactly that row goes |
| DeletionAnswers.EdgeCheckAnswers | vault-server/src/logic/impl/edge_service.cpp:125-177 | the code of validateEdge for every pair: 404 for a missing state that is looked up, an exception for one that cannot be read, 400 for two workflows or an archived state, 200 otherwise |
| ServiceAnswers.UnreadableRowsStay | vault-server/src/logic/impl/workflow_service.cpp:129-185 | in every run of the services a workflow or state whose text looks like a date stays as it is |
| Graph.InsertKeeps | tools/migrator/src/migrations_sqlite/v1_initial_schema.h:186-209 | an insert that the engine accepts keeps the graph sound if a new edge's ends lie in one workflow |
| Graph.UpdateKeeps | vault-server/src/repo/sqlite/sqlite_state_repository.cpp:206-217 | an update that writes no foreign key keeps the graph sound |
| Graph.DeleteKeeps | tools/migrator/src/migrations_sqlite/v1_initial_schema.h:186-209 | a cascade from any rows keeps the graph sound |
| Graph.ServicesKeepGraph | vault-server/src/logic/impl/edge_service.cpp:49-92 | every run of the three services, with any other writes in between, keeps all references resolved, edge ends in one workflow, no two edges for a pair, distinct non-empty captions |
| GraphDeletes.DoomedByWorkflow | tools/migrator/src/migrations_sqlite/v1_initial_schema.h:186-265 | exactly which workflows, states, edges, item types and items the cascade from a workflow takes |
| GraphDeletes.EdgesOfEitherEnd | vault-server/src/repo/sqlite/sqlite_edge_repository.cpp:268-300 | the double join finds an edge iff its first end lies in the workflow, and iff its second does |
| GraphDeletes.WorkflowDeletion | vault-server/src/logic/impl/workflow_service.cpp:129-185 | a successful deleteWorkflow takes that workflow, its states and its edges, the items of its types, and no other of these nor any row of independent tables; of survivors only items can change |
| GraphDeletes.ItemsSurvive | vault-server/src/logic/impl/workflow_service.cpp:168-185 | no item goes iff none has a type of the workflow, which holds when items are in states of their type's workflow |
| GraphDeletes.DeletedItem | vault-server/src/logic/impl/workflow_service.cpp:129-185 | a sound database on which a successful deleteWorkflow takes an item that is in a state of another workflow |
| GraphDeletes.NothingElseChanges | vault-server/src/logic/impl/workflow_service.cpp:129-166 | if no item goes, no surviving row of any table changes |
| GraphDeletes.StateDeletion | vault-server/src/logic/impl/state_service.cpp:129-189 | a successful deleteState takes the state and the rules, votes and board columns that mention it, and changes nothing else, so neither items nor edges |
| GraphThreads.ThreadsKeepGraph | vault-server/src/logic/impl/edge_service.cpp:125-177 | with the reads and writes of several threads interleaved at will, references resolve, edge ends lie in one workflow, no pair has two edges |
| GraphThreads.CaptionsAfterInsert | vault-server/src/logic/impl/workflow_service.cpp:49-81 | createWorkflow's insert keeps captions distinct iff the caption is empty or held by no workflow at that moment |
| GraphThreads.CaptionsAfterUpdate | vault-server/src/logic/impl/workflow_service.cpp:101-120 | updateWorkflow's update keeps them distinct iff the caption is not given, empty, or held by no other workflow at that moment |
| GraphThreads.CaptionsStayDistinctIff | vault-server/src/logic/impl/workflow_service.cpp:49-127 | in every interleaving of looks and writes captions are distinct after every action iff each write meets that condition when it happens |
| GraphThreads.CaptionRace | vault-server/src/logic/impl/workflow_service.cpp:60-66 | two threads that both look before either creates: a possible run that ends with one caption twice |
| GraphThreads.UpdateRace | vault-server/src/logic/impl/workflow_service.cpp:101-115 | the same with two updates of different workflows |
| Listing.EarlyExitAgrees | vault-server/src/repo/sqlite/sqlite_project_repository.cpp:84-117 | the early exit shows what LIMIT and OFFSET would, for any page and size, and the total is the number of filtered rows |
| Listing.OneAnswer | vault-server/src/repo/sqlite/sqlite_edge_repository.cpp:92-109 | an order without ties has one answer |
| Listing.PagesConcatenate | vault-server/src/repo/sqlite/sqlite_edge_repository.cpp:57-109 | pages 1 to n, each from an answer of its own, are together the ordered filtered rows once n reaches the page count; later pages are empty; every page gives the total |
| Listing.MendedPages | vault-server/src/logic/impl/project_service.cpp:20-40 | a page below 1 shows the first and a size below 1 shows twenty rows: the exact slice for every page and size, and the total |
| Listing.PageCountIsLeast | vault-server/src/repo/sqlite/sqlite_edge_repository.cpp:57-109 | the page count is the least number of pages that holds all rows |
| Listing.PagingNeedsTotalOrder | vault-server/src/repo/sqlite/sqlite_state_repository.cpp:48-115 | paging shows every row once for every page size and every choice of the engine iff the order has no ties |
| Listing.EdgesProjectsPhasesPage | vault-server/src/repo/sqlite/sqlite_phase_repository.cpp:74-102 | ordering by id, and by beginDate and id with NULL first, pages faultlessly |
| Listing.StatesPageIff | vault-server/src/repo/sqlite/sqlite_state_repository.cpp:62-115 | paging states is faultless iff no two of a workflow share an order number |
| Listing.OrdersSpelledOut | vault-server/src/repo/sqlite/sqlite_phase_repository.cpp:74-102 | what is ordered by id, by beginDate and id with NULL first, and by workflow and order number |
| Texts.FoundIsContains | vault-server/src/repo/sqlite/sqlite_project_repository.cpp:66-89 | without % and _, LIKE with the text between percent signs is containment |
| Texts.SearchIsContainment | vault-server/src/repo/sqlite/sqlite_project_repository.cpp:66-89 | LIKE is containment for all lower-case texts iff what is looked for has no % and no _ |
| Texts.LikeWithoutPercent | vault-server/src/repo/sqlite/sqlite_project_repository.cpp:66-89 | a pattern without % matches iff it has the text's length and each character is _ or the same letter in either case |
| Texts.LikeAfterPercent | vault-server/src/repo/sqlite/sqlite_project_repository.cpp:66-89 | a pattern that begins with % matches iff the rest of it matches some end of the text |
| Texts.LikeInParts | vault-server/src/repo/sqlite/sqlite_project_repository.cpp:66-89 | what stands before a % is matched first; with the two above this settles LIKE for every pattern |
| Texts.CutAtNul | vault-server/src/storage/sqlite/sqlite_statement.cpp:93-101 | a bound text ends before its first NUL |
| Texts.DateIsLike | vault-server/src/storage/sqlite/sqlite_result_set.cpp:131-138 | a text is taken for a date iff it is LIKE ____-__-__ __:__:__% |
| Times.SecondsKeepOrder | common/helpers/time_helpers.h:14-20 | truncation to seconds keeps the order of time points |
| Times.SecondsRoundTrip | common/helpers/time_helpers.h:14-28 | seconds survive the way to a time point and back iff they are within 9223372036 of the epoch |
| Times.TimePointRoundTrip | common/helpers/time_helpers.h:14-28 | a time point survives the way to seconds and back iff it is a whole second, and moves toward the epoch by less than one else |
| Projects.ProjectRepository.Insert | vault-server/src/repo/sqlite/sqlite_project_repository.cpp:162-230 | one new row with both time stamps and the search columns, or zero, or an exception |
| Projects.ProjectRepository.Change | vault-server/src/repo/sqlite/sqlite_project_repository.cpp:232-318 | the given columns and the time of the update, on that row only |
| Projects.ProjectRepository.FindAll | vault-server/src/repo/sqlite/sqlite_project_repository.cpp:29-126 | the rows of the page by id, ascending, and the number of all that pass, all as the filter asks; without a search exactly those; an exception iff one of the page cannot be read |
| Projects.ProjectReadsBack | vault-server/src/repo/sqlite/sqlite_project_repository.cpp:162-318 | zero iff there is no caption, an exception iff the parent is missing, when update succeeds; a created row has the columns it was given and an updated one what it had overlaid with what was given, with the times of creation and update, on that row only; it shows them unless a text looks like a date |
| Projects.ArchiveThenRestore | vault-server/src/repo/sqlite/sqlite_project_repository.cpp:320-376 | on an active project leaves the time of the update as the only difference |
| Projects.RunsKeepColumnsInStep | vault-server/src/repo/sqlite/sqlite_project_repository.cpp:162-376 | in every run of create, update, archive and restore under a clock that does not go back, search columns are the lower-cased texts, creation is not after update, no row goes and no creation time changes |
| Projects.SearchFindsExactly | vault-server/src/repo/sqlite/sqlite_project_repository.cpp:44-117 | after every run a search without wildcards selects exactly the rows whose parent is NULL for parent 0 and the one given for another, whose flag is 1 or 0 as asked, and whose lower-cased caption contains the lower-cased text |
| Projects.FilterSelects | vault-server/src/repo/sqlite/sqlite_project_repository.cpp:44-95 | after every run, without a search, exactly the rows as asked by parent and flag are selected, and the flag of every row is 0 or 1 |
| Projects.NewIsFound | vault-server/src/repo/sqlite/sqlite_project_repository.cpp:162-230 | a created project is found iff the filter asks for its parent or none, its flag or any, and a part of its stored caption |
| Projects.ArchivedIsFound | vault-server/src/repo/sqlite/sqlite_project_repository.cpp:320-376 | after archive a project is found among the archived and not among the others, after restore the other way round, every other one as before; for an id that is not there nothing changes |
| Projects.SetArchiveAnswers | vault-server/src/repo/sqlite/sqlite_project_repository.cpp:320-376 | true iff the id is positive and there; flag and time of update of that row change and nothing else |
| Phases.JsonRoundTrip | common/dto/phase.cpp:18-181 | fromJson of toJson, into any object, succeeds and gives the phase with its dates in whole seconds, which is the phase iff they were |
| Phases.Members | common/dto/phase.cpp:18-57 | the object has a member for each field that is given, numbers, texts, seconds and the flag, and no other |
| PhaseAnswers.FieldsRead | common/dto/phase.cpp:59-181 | per field and for every object: absent or null clears it, a wrong type leaves it, an integer is taken modulo 2^64, a fraction toward zero, a date as that many seconds |
| PhaseAnswers.ReadSucceedsIff | common/dto/phase.cpp:59-181 | true iff no member that is there has a type its field does not take |
| Phases.PhaseDto.ReadJson | common/dto/phase.cpp:59-181 | field by field in place: absent or null clears, a wrong type leaves the field and makes the result false |
| Phases.PhaseRepository.Change | vault-server/src/repo/sqlite/sqlite_phase_repository.cpp:221-312 | the given columns of that row only; false for no id, no field, no row or a failing key |
| PhaseAnswers.UpdateAnswers | vault-server/src/repo/sqlite/sqlite_phase_repository.cpp:221-312 | update succeeds iff the id is there, some field is given, and the project, if given, exists; only that row changes, and none if not |
| PhaseAnswers.ArchiveAnswers | vault-server/src/repo/sqlite/sqlite_phase_repository.cpp:314-364 | archive sets the flag of a row that is there to 1 and restore to 0, and nothing else in the table |
| PhaseAnswers.CreateAnswers | vault-server/src/repo/sqlite/sqlite_phase_repository.cpp:147-219 | refused iff caption or project is not given, an exception iff the project does not exist, else one new row and no other change |
| PhaseAnswers.CreatedColumns | vault-server/src/repo/sqlite/sqlite_phase_repository.cpp:166-211 | each column of the new row from its own field, dates as seconds, the flag 0 if not given |
| PhaseAnswers.CreateReadsBack | vault-server/src/repo/sqlite/sqlite_phase_repository.cpp:147-219 | the new phase reads as the one given with its id, texts cut at the first NUL, dates in whole seconds, the flag false if not given; unreadable iff a stored text looks like a date |
| Phases.UpdateTwice | vault-server/src/repo/sqlite/sqlite_phase_repository.cpp:221-305 | two successful updates are the one of the second laid over the first, and no other row changes |
| Phases.UpdatesCommute | vault-server/src/repo/sqlite/sqlite_phase_repository.cpp:221-305 | updates that agree on the fields they share can change places |
| Phases.UpdateReadsBack | vault-server/src/repo/sqlite/sqlite_phase_repository.cpp:221-305 | an updated phase stays readable iff the given texts do not look like dates, and reads as before overlaid with what was given, in whole seconds |
| Phases.ReadSendUpdate | vault-server/src/repo/sqlite/sqlite_phase_repository.cpp:440-466 | a row read, sent as JSON, read from it and used for an update leaves the table as it was iff its flag is 0 or 1, its texts have no NUL and its search columns are in step |
| Phases.RunsKeepWritten | vault-server/src/repo/sqlite/sqlite_phase_repository.cpp:147-364 | every run of create, update, archive and restore keeps rows as `Phases.ReadSendUpdate` needs them |

## Left out

- HTTP, routing, JSON text, logging, configuration, the client and the code generator: wrappers over
  libraries whose code is not here. `items_handler.cpp` returns canned data.
- JWT signing, SHA-256 and ICU lower-casing: parameters with the contracts named above.
- A failing statement is taken to leave an open transaction open. After a full disk, an I/O error or lack of
  memory SQLite may end it by itself; later writes through the same transaction object would then be
  durable one by one.
- `locking.dfy` is for one connection, which `Databases.SharedByAll` provides; `two_connections.dfy` has
  several, without their contents. The creating thread is the one that destroys a transaction object.
- The parameter and column-name caches, binding and typed getters of statements and result sets: look-ups
  without influence on other steps. Statements are single steps of the engine; a result set's `next` is a
  locked read.
- Crashes and the write-ahead log: the durable content is what another connection would find.
- The exceptions that repositories swallow or pass on (false, 0, an empty list): queries of the services
  succeed, except for violated foreign keys and UNIQUE constraints and for texts that cannot be read.
- The UNIQUE constraints of tables that neither the modelled services nor the migrations write; the
  columns of those tables other than foreign keys are one opaque text.
- Migrator.MigratedDatabaseIsSound: is about the manager alone; `Migrator.ServerAndMigratorKeepSound` has
  the server at work in between, and promises soundness and not the exact rows or distinct captions,
  because the second migration inserts its workflow without looking for the caption.
- The first migration's statements are one step: creating and dropping tables is creating and dropping
  their rows; indexes have none. The `.schema` table is taken as created with its one row.
- `ItemType.defaultStateId` has no foreign key in the schema and can name a state that is gone;
  `GraphDeletes.StateDeletion` counts it as unchanged.
- The captions and descriptions of the default data, which are in Russian in the original, stand in
  English in `defaults.dfy`, with the caption also as the description; the columns of the administrator
  that are not UNIQUE are one text, and `weekOrder`, always 0, has no column.
- Services.StateService.DoUpdate: does not promise a weight between 0 and 100, because updateState does
  not validate it, nor that no edge touches an archived state, because the second migration inserts one.
- `invalidateCount` is shared by all middleware objects of a process and is an int; `auth.dfy` counts for
  one object without bound, while `revocation.dfy` lets a sweep come at any revocation.
- Text is a sequence of code points. Lengths and the test for texts that look like a date count bytes in
  the original, which is the same for ASCII text.
- Phases.PhaseDto.ReadJson: dates of more seconds than a time point can hold are excluded, and floating
  point numbers outside 64 bits, because the original's arithmetic is undefined for them.
- Listing.PagesConcatenate: (page - 1) * pageSize beyond 32 bits is excluded, because the original's
  multiplication is undefined there. The orders of field types and item types have ties like that of states.
- Parents of projects may form a cycle, and PageResponse does not restore an empty list; neither is
  promised by the code.
- Creating directories for the database file, which `normalizePath` does after rewriting.
