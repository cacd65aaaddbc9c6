# sqlx-migrate: the migration reconciliation loop, modelled in Dafny

The Go package `migrate` applies an ordered registry of schema migrations to a
database. It records each applied migration's id in a table named
`migrations`. `Migrate` first creates that table if it is missing. It then
walks the registry in order and skips ids the table already holds. It runs
every other migration in its own transaction: insert the id, run the forward
step, commit. It stops at the first error. `Rollback` walks the registry
backwards. It skips migrations without a reverse step and ids the table does
not hold. For the others it deletes the id and runs the reverse step in one
transaction. `New` accepts only the drivers `sqlite3` and `mysql`.

The model has four modules:

- `Reconcile` (reconcile.dfy) states the behaviour on values.
  - The table is a `set<string>` of ids.
  - Every database call and user step takes its outcome from an environment
    `env: Call -> Outcome`. A `Call` names the kind of call and the registry
    index it is made for. Within one `Migrate` or `Rollback` each such key
    occurs at most once, so an environment can describe any pattern of
    failures.
  - `Transaction` is `runMigration`/`runRollback`.
  - `ApplyFrom` and `RevertBelow` are the two loops. `MigrateRun` and
    `RollbackRun` add the table bootstrap in front.
  - A `Run` records the error returned, the table afterwards, and the calls
    made.
  - `Message` renders an error with the context prefix of its `fmt.Errorf`
    wrapping.
- `ApplyProofs` and `RollbackProofs` (apply_proofs.dfy, rollback_proofs.dfy)
  prove the properties of the two walks. Most are proved by induction over
  the registry.
- `Migrate` (migrate.dfy) is the package's imperative shape.
  - A `DB` class holds the driver name and the rows of `migrations`. It
    records the calls it sees in a ghost log.
  - A transaction is a value holding its own view of the rows. Commit writes
    that view back. A failed commit or a discarded transaction leaves the
    rows alone.
  - The `SqlxMigrate` class has `Migrate` and `Rollback` loops and the
    transaction methods. Each is proved to leave the rows, the error and the
    call log exactly as the `Reconcile` functions say.
- `Scenarios` (scenarios.dfy) restates the integration tests' scenarios:
  apply, apply again with a longer registry, roll back, re-apply. The tests
  call `New` as if it had one result. The scenarios use its two results
  (migrator, error).

Two behaviours of the code worth stating:

- A failed commit is wrapped with the same context as the other transaction
  failures ("running migration: …", "running rollback: …";
  migrate.go:119-121, 143-145). It is not returned bare.
- Duplicate ids are not rejected. The model shows what happens: once an
  earlier entry commits its id, a later entry with the same id is skipped.

## Model

| member | source | states |
|---|---|---|
| `Migrate.CheckDriver` | migrate.go:11-26 | the driver check passes exactly for "sqlite3" and "mysql"; otherwise the error names the driver |
| `Migrate.New` | migrate.go:23-31 | an unsupported driver gives the error and no migrator; a supported one gives a fresh migrator holding exactly the given db and registry |
| `Migrate.SqlxMigrate.constructor` | migrate.go:28-31 | the migrator holds the given db and registry |
| `Migrate.SqlxMigrate.Migrate` | migrate.go:35-60 | the error, the rows and the call log afterwards are those of `MigrateRun` on the rows before; on success every registry id is tracked |
| `Migrate.SqlxMigrate.Rollback` | migrate.go:63-92 | the error, the rows and the call log afterwards are those of `RollbackRun` on the rows before; on success no id of a migration with a reverse step is tracked |
| `Migrate.SqlxMigrate.CreateMigrationTable` | migrate.go:94-100 | succeeds exactly when the CREATE succeeds, otherwise returns its error wrapped as "creating migrations table"; the rows are untouched |
| `Migrate.SqlxMigrate.RunMigration` | migrate.go:102-124 | begin, insert, forward step and commit, stopping at the first failure; the id is added exactly when all four succeed, and otherwise the rows are unchanged |
| `Migrate.SqlxMigrate.RunRollback` | migrate.go:126-148 | begin, delete, reverse step and commit, stopping at the first failure; the id is removed exactly when all four succeed, and otherwise the rows are unchanged |
| `Migrate.DB.ExecCreateTable` | migrate.go:95 | CREATE TABLE IF NOT EXISTS never changes the rows |
| `Migrate.DB.Get` | migrate.go:43 | the lookup reports an error exactly when the call fails, and otherwise a row exactly when the id is tracked |
| `Migrate.DB.Beginx` | migrate.go:105 | a transaction starts with a view equal to the current rows |
| `Migrate.DB.TxInsert` | migrate.go:109 | a successful INSERT adds the id to the transaction's view only |
| `Migrate.DB.TxDelete` | migrate.go:133 | a successful DELETE removes the id from the transaction's view only |
| `Migrate.DB.TxStep` | migrate.go:114 | a user step leaves the `migrations` rows alone; only its outcome matters |
| `Migrate.DB.TxCommit` | migrate.go:119 | a successful commit makes the transaction's view the rows; a failed one changes nothing |
| `Reconcile.ApplyFrom` | migrate.go:41-58 | the body of `Migrate`'s loop from index i on: it never removes an id and makes calls only for indices i and later |
| `Reconcile.RevertBelow` | migrate.go:68-90 | the body of `Rollback`'s loop over indices n-1 down to 0: it never adds an id and makes calls only for indices below n |
| `Reconcile.MigrateRun` | migrate.go:35-60 | `Migrate`: the table bootstrap is its first call, and the walk never removes an id |
| `Reconcile.RollbackRun` | migrate.go:63-92 | `Rollback`: the table bootstrap is its first call, and the walk never adds an id |
| `Reconcile.Classify` | migrate.go:44-53 | a lookup is an error exactly when the query fails, and otherwise finds a row exactly when the id is present (`sql.ErrNoRows` otherwise) |
| `Reconcile.Transaction` | migrate.go:102-148 | all-or-nothing: the rows gain (or lose) the id exactly when the commit ran and succeeded, and are unchanged otherwise; all calls before the last succeeded, and any failure is wrapped "running migration"/"running rollback" |
| `Reconcile.TransactionOrder` | migrate.go:105-122 | the calls are a non-empty prefix of begin, insert or delete, step, commit |
| `Reconcile.MessageIdentifiesError` | migrate.go:25-127 | an error's text is the context prefix of its `fmt.Errorf` format ("Unsupported driver name: " at line 25, "looking up migration by id: " at 52, "looking up rollback by id: " at 84, "creating migrations table: " at 97, "running migration: " at 103, "running rollback: " at 127) followed by the wrapped text; these six prefixes keep errors apart, so two errors with the same text are the same error |
| `ApplyProofs.ApplyFromTracked` | migrate.go:41-59 | the walk only adds registry ids and never removes one; on success it has added every registry id |
| `ApplyProofs.ApplyFromOrder` | migrate.go:41-58 | the walk from index i makes calls for indices i and later only, in ascending order |
| `ApplyProofs.ApplyFromReported` | migrate.go:41-58 | the walk succeeds exactly when all its calls succeed; otherwise it stops at the first failing call and returns that call's error with its phase's prefix |
| `ApplyProofs.ApplyFromSkipsTracked` | migrate.go:43-50 | only a lookup is made for an id that was tracked when the walk started |
| `ApplyProofs.ApplyFromCommitted` | migrate.go:54-57 | the rows afterwards are the rows before plus the ids of the migrations whose commit succeeded |
| `ApplyProofs.MigrateBootstrapFailure` | migrate.go:35-39 | when the table cannot be created, `Migrate` returns that error after no other call and leaves the rows unchanged |
| `ApplyProofs.MigrateTracked` | migrate.go:41-59 | `Migrate` never removes an id, adds only registry ids, and on success leaves every registry id tracked |
| `ApplyProofs.MigrateOrder` | migrate.go:35-58 | `Migrate` bootstraps first, then visits registry indices in ascending order |
| `ApplyProofs.MigrateReported` | migrate.go:35-59 | `Migrate` stops at the first failing call, attempts no later migration, and returns that failure wrapped for its phase; it succeeds exactly when every call it made succeeded |
| `ApplyProofs.MigrateSkipsTracked` | migrate.go:43-50 | no forward step runs for an id that was tracked when `Migrate` started |
| `ApplyProofs.MigrateAtomic` | migrate.go:102-124 | the rows afterwards are the rows before plus exactly the ids whose commit succeeded |
| `ApplyProofs.MigrateWhenAllTracked` | migrate.go:43-50 | with every registry id tracked, `Migrate` makes only the bootstrap and lookups and leaves the rows unchanged |
| `ApplyProofs.MigrateIdempotent` | migrate.go:35-59 | after a successful `Migrate`, a second one (with any outcomes) runs no forward step and leaves the rows unchanged; it succeeds exactly when its bootstrap and lookups do |
| `RollbackProofs.RevertBelowTracked` | migrate.go:68-91 | the backward walk only removes ids of migrations with a reverse step and never adds one; on success it has removed all of them |
| `RollbackProofs.RevertBelowOrder` | migrate.go:68-73 | the backward walk below n makes calls for indices below n only, in descending order, and none for a migration without a reverse step |
| `RollbackProofs.RevertBelowReported` | migrate.go:68-90 | the backward walk succeeds exactly when all its calls succeed; otherwise it stops at the first failing call and returns that call's error with its phase's prefix |
| `RollbackProofs.RevertBelowOnlyTracked` | migrate.go:74-82 | only a lookup is made for an id that was untracked when the walk started |
| `RollbackProofs.RevertBelowCommitted` | migrate.go:86-89 | the rows afterwards are the rows before minus the ids of the migrations whose commit succeeded |
| `RollbackProofs.RollbackBootstrapFailure` | migrate.go:63-67 | when the table cannot be created, `Rollback` returns that error after no other call and leaves the rows unchanged |
| `RollbackProofs.RollbackTracked` | migrate.go:68-91 | `Rollback` never adds an id and removes only ids of migrations with a reverse step, so every other id keeps its membership; on success no id of a migration with a reverse step is tracked |
| `RollbackProofs.RollbackSkipsIrreversible` | migrate.go:70-73 | a migration without a reverse step gets no call at all, whether its id is tracked or not |
| `RollbackProofs.RollbackOrder` | migrate.go:68 | `Rollback` bootstraps first, then visits registry indices from the last to the first |
| `RollbackProofs.RollbackReported` | migrate.go:63-92 | `Rollback` stops at the first failing call, attempts no earlier migration, and returns that failure wrapped for its phase; it succeeds exactly when every call it made succeeded |
| `RollbackProofs.RollbackOnlyTracked` | migrate.go:76-79 | no reverse step runs for an id that was untracked when `Rollback` started |
| `RollbackProofs.RollbackAtomic` | migrate.go:126-148 | the rows afterwards are the rows before minus exactly the ids whose commit succeeded |
| `RollbackProofs.ReapplyRestores` | migrate_test.go:118-152 | for any registry (entries without a reverse step included), any starting rows and any outcomes: when apply, roll back and apply again all succeed, the rows end as the first apply left them |
| `Scenarios.ApplyRollbackReapply` | migrate_test.go:118-152 | with no failures: apply "1", roll back (row gone), apply again (same as the first apply), as the test does; one extra apply right after the first, which the test does not make, only looks up |
| `Scenarios.ExistingMigrations` | migrate_test.go:79-116 | with "1" already tracked, a registry "1","2" skips "1" and runs exactly the transaction of "2" |

## Left out

- SQL text, the `sqlx`/`database/sql` drivers and the `VARCHAR(63)` column: every database call is an abstract step whose outcome comes from the environment.
- What the user forward and reverse steps do to other tables: they are opaque steps that succeed or fail.
- A user step is taken never to touch the `migrations` table itself (`DB.TxStep`, `Transaction`). A step that deletes or inserts rows there would break the success clause of `MigrateTracked` and `RollbackTracked` in the real program.
- Every forward step is taken to be non-nil. A registry entry with a nil `Migrate` makes the call at migrate.go:114 panic: no error is returned, the transaction stays open and the rest of the walk is abandoned. `Migration` has no way to express a missing forward step.
- Ids are compared by exact string equality (`id in tracked`). The `PRIMARY KEY` column compares by the database's collation; on MySQL the default is case-insensitive, so for the registry "a","A" the lookup at migrate.go:43 finds "a" for "A" and skips A's forward step, where the model runs A's transaction.
- The outcome of a call does not depend on the database contents. For example, an INSERT of an id already present would fail in a real database. The walks only insert ids their lookup found absent, so this does not change which ids are tracked.
- A missing table and an empty one are not told apart: the bootstrap precedes every lookup, and it never changes the rows.
- The `log.Printf` output (migrate.go:46, 49, 71, 78, 81), which is I/O only.
- The error from `tx.Rollback()` on a discarded transaction, which the code ignores: a discarded transaction simply never writes its view back.
- Statements in a user step that commit implicitly. On MySQL, DDL such as the CREATE TABLE and DROP TABLE of migrate_test.go:13-26 commits the open transaction first. The INSERT at migrate.go:109 (the DELETE at migrate.go:133) is then already durable when the step fails, and `tx.Rollback()` undoes nothing: `Migrate` returns "running migration: …" while the id stays tracked. `Transaction`, `MigrateAtomic` and `RollbackAtomic` hold for sqlite3 and for steps that do not commit implicitly.
- Transaction isolation and concurrent migrators on one database: each transaction is one atomic update of the rows.
- The `Name` field of `Migration` (migrate.go:154), which is never read.
- The full `Error()` text of an underlying error: the wrapped cause is kept as a string.
