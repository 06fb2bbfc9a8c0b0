# Forward-only migration engine

This project models package `migration` in Dafny. The package applies the
`.sql` files of a migration directory to a SQL database, once each, in path
order. It records each applied file in a `migration_log` table and stops at
the first failure.

- `Sorting`: Go's byte-wise string order (`LessEq`) and the sort of the
  discovered paths (`SortStrings`). Any two sorted orderings of the same
  paths are equal, so the result does not depend on which sort is used.
- `Migration`: the data and the engine.
  - Data:
    - the migration directory as a value, `Source`: the entries the walk
      visits and the files that can be opened and read;
    - the database as a class `Db`. Its fields are whether `migration_log`
      exists, the log rows, the next auto-increment id, and the trace of
      migration statements and log inserts that took effect (creating the
      log table is not recorded).
  - The four Go functions are methods on `Db`: `Migrate`,
    `EnsureMigrationLog`, `AppliedMigrations` and `CheckpointMigration`.
    `ApplyMigration` is the body of the apply loop.
  - `Migrate` is proved against the function `Run`, which says what one run
    does: its result, whether the log table was ensured, the new log and
    the new trace.
  - `Run` is built from:
    - discovery (`Candidates`, `Discover`);
    - the attempt at one migration (`Attempt`);
    - the apply loop (`Apply`).
  - How the database answers statements is a fixed oracle, `Faults`. It
    says whether creating or selecting the log fails, which SQL texts fail
    to execute and which paths fail to be inserted into the log.
- `MigrationProperties`: what a run promises, proved about `Run`:
  - setup failures change nothing;
  - success applies exactly the pending paths, in order;
  - a failure halts at the first bad migration;
  - a rerun does nothing;
  - each path is logged at most once;
  - the log only grows, in path order.
- `MigrationScenarios`: the repository's test scenarios, for an arbitrary
  directory name: a directory of two valid migrations, and one whose second
  migration is broken.

`Migrate` returns a nil list on every error
(`migration/migration.go:40,48,57,67,72,76,80`), and so does the model:
`Err` carries no list, not even the migrations applied before the error.
What survives a failure is the log itself. The log keeps every migration checkpointed before the failure
(`StopsAfterBadFile`, `FailureHaltsAtFirstBadMigration`).

## Model

| member | source | states |
|---|---|---|
| Sorting.LessEqTotal | migration/migration.go:43-44 | any two paths are comparable in Go's string order |
| Sorting.LessEqTransitive | migration/migration.go:43-44 | Go's string order is transitive |
| Sorting.LessEqAntisymmetric | migration/migration.go:43-44 | two paths each at most the other are equal, so the order is a total order on paths |
| Sorting.SortStrings | migration/migration.go:43-44 | `slices.Sort`: the result is sorted and a permutation of its input |
| Sorting.SortedPermutationUnique | migration/migration.go:43-44 | two sorted permutations of the same paths are the same sequence, so an unstable sort gives the same order |
| Migration.HasSuffix | migration/migration.go:33 | `strings.HasSuffix` holds exactly when the name is some string followed by the suffix |
| Migration.Candidates | migration/migration.go:27-38 | the walk callback keeps at most one path per visited entry |
| Migration.CandidatesMembership | migration/migration.go:27-38 | a path is a candidate exactly when the walk visits, under that path, a non-directory entry whose base name ends in `.sql` |
| Migration.Discover | migration/migration.go:26-44 | the migrations to consider are the candidates, sorted ascending, as a permutation of the candidates |
| Migration.Db.constructor | migration/migration_test.go:23 | a database starts with no `migration_log` table, no rows and nothing executed |
| Migration.Attempt | migration/migration.go:65-83 | one pending migration succeeds exactly when its file opens, reads, executes and is checkpointed; otherwise the error is the first stage that fails, one clause per stage (open exactly when the file is missing, read exactly when it is unreadable, exec exactly when its SQL is rejected, checkpoint exactly when only the insert is rejected), naming the path; only a failed checkpoint leaves an executed statement behind |
| Migration.Pending | migration/migration.go:59-63 | a candidate is pending exactly when it is not in the log read before the loop; pending paths are a sub-multiset of the candidates |
| Migration.ApplyStaysHalted | migration/migration.go:60-84 | once a migration has failed, later candidates change nothing |
| Migration.EnsureMigrationLog | migration/migration.go:96-110 | the log table exists afterwards unless creating it fails; nothing else changes |
| Migration.AppliedMigrations | migration/migration.go:112-126 | when the select succeeds, returns the logged paths in `id` order, one per row; otherwise an error and no list |
| Migration.CheckpointMigration | migration/migration.go:128-137 | the insert succeeds exactly when the table exists and accepts the path; it then appends the path to the log and nothing else; on failure nothing changes |
| Migration.ApplyMigration | migration/migration.go:65-83 | open, read, execute, checkpoint, as `Attempt` says: on success the log gains the path and the trace gains its execution and then its checkpoint; on failure the log is unchanged |
| Migration.Migrate | migration/migration.go:23-87 | the result, the log table, the new log and the new trace are exactly `Run`'s, and the row invariant is kept |
| MigrationProperties.ApplyShape | migration/migration.go:59-86 | the apply loop applies a prefix of the pending paths, each of which succeeded, and appends exactly those to the log; it stops after the last one or at the first failing one, keeping that error |
| MigrationProperties.DiscoverIsTheSortedOrder | migration/migration.go:43-44 | any sorted permutation of the candidates is `Discover`'s order |
| MigrationProperties.CandidatesNoRepeats | migration/migration.go:27-38 | distinct walk paths give distinct candidates |
| MigrationProperties.PendingSorted | migration/migration.go:60-63 | skipping logged candidates keeps the rest in path order |
| MigrationProperties.PendingOfEmptyLog | migration/migration.go:60-63 | against an empty log every candidate is pending |
| MigrationProperties.SetupFailureChangesNothing | migration/migration.go:39-58 | a walk, ensure-log or log-read error happens exactly when the source or the database fails before the loop, and then nothing is executed or logged |
| MigrationProperties.SuccessAppliesAllPending | migration/migration.go:51-86 | a run succeeds exactly when setup succeeds and every pending migration succeeds; it then returns the pending paths in order, appends exactly them to the log, executes each just before checkpointing it, and leaves every candidate logged |
| MigrationProperties.FailureHaltsAtFirstBadMigration | migration/migration.go:65-81 | a failing apply stage halts at the first pending migration that fails: the log gains exactly the ones before it, the error names it, and nothing after it runs |
| MigrationProperties.RerunIsNoOp | migration/migration.go:55-63 | right after a successful run, a second run returns an empty list and changes nothing |
| MigrationProperties.LogHoldsEachPathOnce | migration/migration.go:60-63 | when walk paths are distinct and the log holds no path twice, the run logs no path twice |
| MigrationProperties.AppendsInPathOrder | migration/migration.go:43-84 | a run keeps the old log as a prefix and appends in ascending path order |
| MigrationProperties.FreshDatabaseLogsAllInOrder | migration/migration.go:23-87 | on an empty log a successful run returns and logs every candidate, in path order |
| MigrationScenarios.FixtureCandidates | migration/migration_test.go:16-20 | the walk keeps the two `.sql` files of the embedded directory and drops the directories and a README entry added to exercise the filter |
| MigrationScenarios.FixtureDiscovery | migration/migration_test.go:60-63 | the users migration sorts before the logins migration |
| MigrationScenarios.InsertsLogs | migration/migration_test.go:22-65 | a fresh database gets the log table and both migrations, users first, each executed before it is logged |
| MigrationScenarios.SecondRunAppliesNothing | migration/migration_test.go:42-65 | going beyond the test, which runs `Migrate` once: migrating the same directory again returns an empty list and changes nothing |
| MigrationScenarios.StopsAfterBadFile | migration/migration_test.go:67-89 | with a broken logins migration the run fails naming it, and only the users migration is executed and logged |

## Left out

- SQL semantics: executing a migration's text is modelled only through the `Faults` oracle, which says whether the statement fails. A batch that fails part-way, after some of its statements took effect, is not modelled.
- The oracle is fixed for each database. A database whose answers change between runs, such as a statement that fails once and then succeeds, is not modelled.
- `created_at` and the exact auto-increment values of `migration_log` rows are not modelled. Only their order is modelled: ids strictly increase in insertion order, so `ORDER BY id` returns the rows in insertion order.
- The context `ctx` (cancellation, deadlines) is not modelled; a cancelled statement is a statement that fails.
- `defer f.Close()` and file handles are not modelled: a file is readable or unreadable as a whole.
- The walk's own behaviour is an input. `Source.walk` is the sequence of entries the callback sees, or `None` when `fs.WalkDir` returns an error. The callback ignores its `err` argument. As a result, a subdirectory that cannot be read is skipped silently, which the model captures as a walk that lacks those entries. A root that cannot be stat'ed makes the Go callback dereference a nil entry; that panic is not modelled. Since the callback itself never returns an error (`migration/migration.go:30,34,38`), `fs.WalkDir` never returns one either, and the branch at `migration/migration.go:39-41` cannot run: `walk == None` and `WalkError` over-approximate the source with a case it never reaches.
- Error messages: each stage's error is one variant of `MigrationError`, carrying the migration's path where the Go message does. The wrapped driver error text is not modelled. In Go, an execution failure and a checkpoint failure both print "error appying migration"; the model keeps them apart as `ExecError` and `CheckpointError`.
- A nil slice and an empty slice are both the empty sequence: a successful run that applies nothing returns `Ok([])`.
- Concurrency: two processes migrating the same database at once are not modelled.
- Migration.Migrate: the body of its loop is factored into the method `ApplyMigration`, and `Migrate` is stated against `Run` rather than directly against the pending list. The link between the two is `SuccessAppliesAllPending` and `FailureHaltsAtFirstBadMigration`.
- MigrationScenarios.InsertsLogs: the test's `test_migrations` directory is an arbitrary directory name, and the SQL texts are stand-ins. The repository's migration files are not part of this model.
- `cmd`, `serv` and `clog` (the command line, the server and logging) are not part of this model.
