/**
 * The forward-only migration engine of package `migration`: discovery of
 * `.sql` files in a file system, the `migration_log` table that checkpoints
 * every applied migration, and `Migrate`, which applies each pending
 * migration once, in path order, and stops at the first failure.
 *
 * The database is a `Db` object whose fields the engine updates in place.
 * How it answers each statement is fixed by an oracle (`Faults`), since SQL
 * itself is not modelled.  The migration directory is a value (`Source`):
 * the engine only reads it.
 */
module Migration {
  import opened Sorting

  datatype Option<T> = None | Some(value: T)

  /** One variant per stage of `Migrate` that can fail. */
  datatype MigrationError =
    | WalkError
    | EnsureLogError
    | ReadLogError
    | OpenError(path: string)
    | ReadError(path: string)
    | ExecError(path: string)
    | CheckpointError(path: string)
  {
    /** The stages reached only after the log has been read. */
    predicate IsApplyStage() {
      OpenError? || ReadError? || ExecError? || CheckpointError?
    }
  }

  datatype Result<T> = Ok(value: T) | Err(error: MigrationError)

  // ---------------------------------------------------------------------
  // The migration directory
  // ---------------------------------------------------------------------

  /** What the directory walk hands its callback: the walk path, the
      entry's base name and whether it is a directory. */
  datatype Entry = Entry(path: string, name: string, isDir: bool)

  /** A file that opens; reading it to the end either succeeds or fails. */
  datatype FileData = Readable(content: string) | Unreadable

  /**
   * The migration directory.  `walk` is the sequence of entries the walk
   * visits, or `None` when the walk itself returns an error; a path that is
   * not a key of `files` cannot be opened.
   */
  datatype Source = Source(walk: Option<seq<Entry>>, files: map<string, FileData>)

  function HasSuffix(s: string, suffix: string): (b: bool)
    ensures b <==> exists p :: s == p + suffix
  {
    if |suffix| <= |s| && s[|s| - |suffix|..] == suffix then
      assert s == s[..|s| - |suffix|] + suffix;
      true
    else
      false
  }

  /** The walk callback keeps files, not directories, whose name ends in `.sql`. */
  predicate IsCandidate(e: Entry) {
    !e.isDir && HasSuffix(e.name, ".sql")
  }

  /** The walk paths of the candidate entries, in walk order. */
  function Candidates(entries: seq<Entry>): (ps: seq<string>)
    ensures |ps| <= |entries|
  {
    if entries == [] then []
    else
      var rest := Candidates(entries[1..]);
      if IsCandidate(entries[0]) then [entries[0].path] + rest else rest
  }

  /** A path is a candidate exactly when the walk visits a non-directory
      entry under that path whose base name ends in `.sql`. */
  lemma {:induction false} CandidatesMembership(entries: seq<Entry>)
    ensures forall p :: p in Candidates(entries) <==>
      exists i :: 0 <= i < |entries| && IsCandidate(entries[i]) && entries[i].path == p
    decreases |entries|
  {
    if entries != [] {
      CandidatesMembership(entries[1..]);
      assert forall i :: 1 <= i < |entries| ==> entries[i] == entries[1..][i - 1];
    }
  }

  /** The candidates in the order they are applied: ascending by path. */
  function Discover(entries: seq<Entry>): (ps: seq<string>)
    ensures Sorted(ps)
    ensures multiset(ps) == multiset(Candidates(entries))
    ensures forall p :: p in ps <==> p in Candidates(entries)
  {
    var ps := SortStrings(Candidates(entries));
    assert forall p :: p in ps <==> p in multiset(Candidates(entries));
    ps
  }

  // ---------------------------------------------------------------------
  // The database
  // ---------------------------------------------------------------------

  /** How the database answers the engine's statements. */
  datatype Faults = Faults(
    ensureFails: bool,          // CREATE TABLE IF NOT EXISTS migration_log fails
    selectFails: bool,          // SELECT * FROM migration_log fails
    badSql: set<string>,        // migration batches whose execution fails
    badInsert: set<string>)     // paths whose INSERT INTO migration_log fails

  /** A migration statement or log insert that took effect, in the order it did;
      creating the log table is not recorded. */
  datatype Effect = Executed(sql: string) | Logged(path: string)

  /** A row of `migration_log`; its `created_at` column is not modelled. */
  datatype Migration = Migration(id: nat, path: string)

  function Paths(rows: seq<Migration>): (ps: seq<string>)
    ensures |ps| == |rows|
    ensures forall i :: 0 <= i < |rows| ==> ps[i] == rows[i].path
  {
    seq(|rows|, i requires 0 <= i < |rows| => rows[i].path)
  }

  class Db {
    const faults: Faults
    var logTable: bool             // whether migration_log exists
    var rows: seq<Migration>       // migration_log, in insertion order
    var nextId: nat                // next AUTOINCREMENT value
    var history: seq<Effect>       // migration statements and log inserts that took effect

    /** Rows are stored in increasing `id` order, below the next id, and
        only once the table exists. */
    ghost predicate Valid()
      reads this
    {
      (forall i, j :: 0 <= i < j < |rows| ==> rows[i].id < rows[j].id) &&
      (forall i :: 0 <= i < |rows| ==> rows[i].id < nextId) &&
      (!logTable ==> rows == [])
    }

    /** The logged paths by increasing `id`. */
    function Log(): seq<string>
      reads this
    {
      Paths(rows)
    }

    /** A fresh database: no migration_log table yet. */
    constructor (faults: Faults)
      ensures Valid() && this.faults == faults
      ensures !logTable && rows == [] && history == []
    {
      this.faults := faults;
      logTable, rows, nextId, history := false, [], 1, [];
    }
  }

  // ---------------------------------------------------------------------
  // The specification of one run
  // ---------------------------------------------------------------------

  /** Reading, executing and checkpointing one pending migration. */
  datatype StepResult =
    | Done(sql: string)
    | Halted(error: MigrationError, ran: seq<Effect>)

  /**
   * What happens to the pending migration `m`: open, read, execute, insert
   * its log row; the first of these that fails halts the run, and only a
   * failed insert leaves an executed statement behind.
   */
  function Attempt(m: string, files: map<string, FileData>, faults: Faults): (s: StepResult)
    ensures s.Halted? ==> s.error.IsApplyStage() && s.error.path == m
    ensures s.Done? <==> m in files && files[m].Readable? &&
                         files[m].content !in faults.badSql && m !in faults.badInsert
    ensures s.Done? ==> s.sql == files[m].content
    ensures s.Halted? && s.error.CheckpointError? ==>
              m in files && files[m].Readable? && files[m].content !in faults.badSql &&
              s.ran == [Executed(files[m].content)]
    ensures s.Halted? && !s.error.CheckpointError? ==> s.ran == []
    ensures s == Halted(OpenError(m), []) <==> m !in files
    ensures s.Halted? && s.error.ReadError? <==> m in files && files[m].Unreadable?
    ensures s.Halted? && s.error.ExecError? <==>
              m in files && files[m].Readable? && files[m].content in faults.badSql
    ensures s.Halted? && s.error.CheckpointError? <==>
              m in files && files[m].Readable? && files[m].content !in faults.badSql && m in faults.badInsert
  {
    if m !in files then Halted(OpenError(m), [])
    else match files[m]
      case Unreadable => Halted(ReadError(m), [])
      case Readable(sql) =>
        if sql in faults.badSql then Halted(ExecError(m), [])
        else if m in faults.badInsert then Halted(CheckpointError(m), [Executed(sql)])
        else Done(sql)
  }

  /** The log, the history, the paths applied so far, and the error that ended the loop. */
  datatype Progress = Progress(log: seq<string>, history: seq<Effect>, applied: seq<string>,
                               failure: Option<MigrationError>)

  /**
   * The apply loop over the candidates `ms`, starting from `log` and
   * `history`: a candidate in `existing` (the log as read before the loop)
   * is skipped; the first attempt that halts ends the loop.
   */
  function Apply(ms: seq<string>, existing: seq<string>, files: map<string, FileData>, faults: Faults,
                 log: seq<string>, history: seq<Effect>): Progress
    decreases |ms|
  {
    if ms == [] then Progress(log, history, [], None)
    else
      var prev := Apply(ms[..|ms| - 1], existing, files, faults, log, history);
      var m := ms[|ms| - 1];
      if prev.failure.Some? || m in existing then prev
      else match Attempt(m, files, faults)
        case Halted(e, ran) => prev.(history := prev.history + ran, failure := Some(e))
        case Done(sql) => Progress(prev.log + [m], prev.history + [Executed(sql), Logged(m)], prev.applied + [m], None)
  }

  /** One more candidate: the loop body. */
  lemma ApplyNext(ms: seq<string>, i: nat, existing: seq<string>, files: map<string, FileData>, faults: Faults,
                  log: seq<string>, history: seq<Effect>)
    requires i < |ms|
    ensures Apply(ms[..i + 1], existing, files, faults, log, history) ==
      var prev := Apply(ms[..i], existing, files, faults, log, history);
      if prev.failure.Some? || ms[i] in existing then prev
      else match Attempt(ms[i], files, faults)
        case Halted(e, ran) => prev.(history := prev.history + ran, failure := Some(e))
        case Done(sql) => Progress(prev.log + [ms[i]], prev.history + [Executed(sql), Logged(ms[i])],
                                   prev.applied + [ms[i]], None)
  {
    assert ms[..i + 1][..i] == ms[..i];
  }

  /** Once the loop has failed, later candidates change nothing. */
  lemma {:induction false} ApplyStaysHalted(ms: seq<string>, k: nat, existing: seq<string>,
                                             files: map<string, FileData>, faults: Faults,
                                             log: seq<string>, history: seq<Effect>)
    requires k <= |ms|
    requires Apply(ms[..k], existing, files, faults, log, history).failure.Some?
    ensures Apply(ms, existing, files, faults, log, history) == Apply(ms[..k], existing, files, faults, log, history)
    decreases |ms| - k
  {
    if k < |ms| {
      assert ms[..k + 1][..k] == ms[..k];
      ApplyStaysHalted(ms, k + 1, existing, files, faults, log, history);
    } else {
      assert ms[..k] == ms;
    }
  }

  /** The candidates not yet in the log, in candidate order. */
  function Pending(ms: seq<string>, existing: seq<string>): (ps: seq<string>)
    ensures forall p :: p in ps <==> p in ms && p !in existing
    ensures multiset(ps) <= multiset(ms)
    decreases |ms|
  {
    if ms == [] then []
    else
      var init := ms[..|ms| - 1];
      var m := ms[|ms| - 1];
      assert ms == init + [m];
      var rest := Pending(init, existing);
      if m in existing then rest else rest + [m]
  }

  /** The statements that take effect when each of `ps`, in turn, is applied. */
  function Trail(ps: seq<string>, files: map<string, FileData>, faults: Faults): seq<Effect>
    decreases |ps|
  {
    if ps == [] then []
    else
      var m := ps[|ps| - 1];
      Trail(ps[..|ps| - 1], files, faults) +
        match Attempt(m, files, faults)
        case Done(sql) => [Executed(sql), Logged(m)]
        case Halted(_, ran) => ran
  }

  /** Everything one call to `Migrate` does: its result, whether the log
      table was ensured, and the database's new log and history. */
  datatype RunOutcome = RunOutcome(result: Result<seq<string>>, ensured: bool,
                                   log: seq<string>, history: seq<Effect>)

  /**
   * A run against a database with oracle `faults`, log `log` and history
   * `history`: walk, ensure the log table, read the log, apply.
   */
  function Run(src: Source, faults: Faults, log: seq<string>, history: seq<Effect>): RunOutcome
  {
    match src.walk
    case None => RunOutcome(Err(WalkError), false, log, history)
    case Some(entries) =>
      if faults.ensureFails then RunOutcome(Err(EnsureLogError), false, log, history)
      else if faults.selectFails then RunOutcome(Err(ReadLogError), true, log, history)
      else
        var p := Apply(Discover(entries), log, src.files, faults, log, history);
        RunOutcome(if p.failure.Some? then Err(p.failure.value) else Ok(p.applied), true, p.log, p.history)
  }

  // ---------------------------------------------------------------------
  // The engine
  // ---------------------------------------------------------------------

  /** Creates migration_log unless it exists; fails only if the database does. */
  method EnsureMigrationLog(db: Db) returns (err: Option<MigrationError>)
    requires db.Valid()
    modifies db
    ensures db.Valid()
    ensures err == (if db.faults.ensureFails then Some(EnsureLogError) else None)
    ensures db.logTable == (old(db.logTable) || err.None?)
    ensures db.rows == old(db.rows) && db.nextId == old(db.nextId) && db.history == old(db.history)
  {
    if db.faults.ensureFails {
      return Some(EnsureLogError);
    }
    db.logTable := true;
    err := None;
  }

  /** The logged paths, one per row, by increasing `id`. */
  method AppliedMigrations(db: Db) returns (r: Result<seq<string>>)
    requires db.Valid()
    ensures r.Ok? <==> db.logTable && !db.faults.selectFails
    ensures r.Err? ==> r.error == ReadLogError
    ensures r.Ok? ==> |r.value| == |db.rows| &&
                      forall i :: 0 <= i < |db.rows| ==> r.value[i] == db.rows[i].path
  {
    if !db.logTable || db.faults.selectFails {
      return Err(ReadLogError);
    }
    var migrations := db.rows;
    var paths: seq<string> := [];
    var i := 0;
    while i < |migrations|
      invariant 0 <= i <= |migrations|
      invariant |paths| == i
      invariant forall k :: 0 <= k < i ==> paths[k] == migrations[k].path
    {
      paths := paths + [migrations[i].path];
      i := i + 1;
    }
    r := Ok(paths);
  }

  /** Inserts one row for `name` into migration_log. */
  method CheckpointMigration(db: Db, name: string) returns (err: Option<MigrationError>)
    requires db.Valid()
    modifies db
    ensures db.Valid() && db.logTable == old(db.logTable)
    ensures err.None? <==> old(db.logTable) && name !in db.faults.badInsert
    ensures err.Some? ==> err.value == CheckpointError(name)
    ensures db.Log() == if err.None? then old(db.Log()) + [name] else old(db.Log())
    ensures db.history == if err.None? then old(db.history) + [Logged(name)] else old(db.history)
  {
    if !db.logTable || name in db.faults.badInsert {
      return Some(CheckpointError(name));
    }
    db.rows := db.rows + [Migration(db.nextId, name)];
    db.nextId := db.nextId + 1;
    db.history := db.history + [Logged(name)];
    err := None;
    assert db.Log() == old(db.Log()) + [name];
  }

  /** Opens, reads, executes and checkpoints the pending migration `m`. */
  method ApplyMigration(db: Db, src: Source, m: string) returns (err: Option<MigrationError>)
    requires db.Valid() && db.logTable
    modifies db
    ensures db.Valid() && db.logTable
    ensures var step := Attempt(m, src.files, db.faults);
      && (err.None? <==> step.Done?)
      && (err.Some? ==> err.value == step.error && db.Log() == old(db.Log())
                        && db.history == old(db.history) + step.ran)
      && (err.None? ==> db.Log() == old(db.Log()) + [m]
                        && db.history == old(db.history) + [Executed(step.sql), Logged(m)])
  {
    if m !in src.files {
      return Some(OpenError(m));
    }
    var f := src.files[m];
    if f.Unreadable? {
      return Some(ReadError(m));
    }
    var byts := f.content;

    if byts in db.faults.badSql {
      return Some(ExecError(m));
    }
    db.history := db.history + [Executed(byts)];

    err := CheckpointMigration(db, m);
  }

  /**
   * Applies the pending migrations of `src` in path order, checkpointing
   * each right after it executes; returns the paths applied, or the first
   * error (with no list).
   */
  method Migrate(db: Db, src: Source) returns (r: Result<seq<string>>)
    requires db.Valid()
    modifies db
    ensures db.Valid()
    ensures var o := Run(src, db.faults, old(db.Log()), old(db.history));
      && r == o.result
      && db.logTable == (old(db.logTable) || o.ensured)
      && db.Log() == o.log
      && db.history == o.history
  {
    if src.walk.None? {
      return Err(WalkError);
    }
    var migrations := Discover(src.walk.value);

    var ensureErr := EnsureMigrationLog(db);
    if ensureErr.Some? {
      return Err(ensureErr.value);
    }

    var existing := AppliedMigrations(db);
    if existing.Err? {
      return Err(existing.error);
    }
    assert existing.value == old(db.Log());

    ghost var log0, history0 := db.Log(), db.history;
    var applied: seq<string> := [];
    var i := 0;
    while i < |migrations|
      invariant 0 <= i <= |migrations|
      invariant db.Valid() && db.logTable
      invariant Apply(migrations[..i], existing.value, src.files, db.faults, log0, history0)
                == Progress(db.Log(), db.history, applied, None)
    {
      var m := migrations[i];
      ApplyNext(migrations, i, existing.value, src.files, db.faults, log0, history0);
      if m in existing.value {
        i := i + 1;
        continue;
      }
      var err := ApplyMigration(db, src, m);
      if err.Some? {
        ApplyStaysHalted(migrations, i + 1, existing.value, src.files, db.faults, log0, history0);
        return Err(err.value);
      }
      applied := applied + [m];
      i := i + 1;
    }
    assert migrations[..i] == migrations;
    r := Ok(applied);
  }
}
