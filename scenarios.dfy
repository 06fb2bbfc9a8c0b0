/**
 * The repository's test scenarios, stated over `Run` for any directory
 * name: an embedded directory with a users and a logins migration, and a
 * copy whose logins migration the database rejects.  The migration files
 * themselves are not part of this model; the SQL texts below are stand-ins.
 */
module MigrationScenarios {
  import opened Sorting
  import opened Migration
  import opened MigrationProperties

  const UsersSql := "CREATE TABLE users (id INTEGER PRIMARY KEY);"
  const LoginsSql := "CREATE TABLE logins (user_id INTEGER REFERENCES users(id));"
  const BrokenSql := "CREATE TABLE logins (user_id INTEGER REFERENCES"

  /** A database on which only `BrokenSql` fails. */
  const RejectsBroken := Faults(false, false, {BrokenSql}, {})

  /**
   * A walk of an embedded `dir` holding the two migrations.  A README that
   * is not a migration is added, and the logins file is listed before the
   * users file, so that the filter and the sort both have work to do (the
   * model does not rely on the order in which the walk visits entries).
   */
  function Fixture(dir: string, loginsSql: string): Source
  {
    var users := dir + "/2024_06_22_1_users.sql";
    var logins := dir + "/2024_06_22_2_logins.sql";
    Source(
      Some([Entry(".", ".", true), Entry(dir, dir, true),
            Entry(dir + "/README.md", "README.md", false),
            Entry(logins, "2024_06_22_2_logins.sql", false),
            Entry(users, "2024_06_22_1_users.sql", false)]),
      map[users := Readable(UsersSql), logins := Readable(loginsSql)])
  }

  /** A path that differs from another only after a shared prefix compares as the suffixes do. */
  lemma {:induction false} LessEqAfterPrefix(prefix: string, a: string, b: string)
    ensures LessEq(prefix + a, prefix + b) == LessEq(a, b)
    decreases |prefix|
  {
    if prefix != [] {
      var x, y := prefix + a, prefix + b;
      assert x[0] == prefix[0] == y[0];
      assert x[1..] == prefix[1..] + a;
      assert y[1..] == prefix[1..] + b;
      LessEqAfterPrefix(prefix[1..], a, b);
    } else {
      assert prefix + a == a && prefix + b == b;
    }
  }

  /** The callback's decision for one entry, followed by its decisions for the rest. */
  lemma CandidatesCons(e: Entry, rest: seq<Entry>)
    ensures Candidates([e] + rest) == (if IsCandidate(e) then [e.path] else []) + Candidates(rest)
  {
    assert ([e] + rest)[1..] == rest;
  }

  /** Only the two `.sql` files of the fixture are candidates. */
  lemma FixtureKinds(dir: string)
    ensures IsCandidate(Entry(dir + "/2024_06_22_1_users.sql", "2024_06_22_1_users.sql", false))
    ensures IsCandidate(Entry(dir + "/2024_06_22_2_logins.sql", "2024_06_22_2_logins.sql", false))
    ensures !IsCandidate(Entry(dir + "/README.md", "README.md", false))
  {
    assert "2024_06_22_1_users.sql" == "2024_06_22_1_users" + ".sql";
    assert "2024_06_22_2_logins.sql" == "2024_06_22_2_logins" + ".sql";
    assert "README.md"[|"README.md"| - 4..] != ".sql";
  }

  /** The walk callback keeps the two `.sql` files, under their walk paths. */
  lemma FixtureCandidates(dir: string, loginsSql: string)
    ensures Candidates(Fixture(dir, loginsSql).walk.value) ==
      [dir + "/2024_06_22_2_logins.sql", dir + "/2024_06_22_1_users.sql"]
  {
    var users, logins := dir + "/2024_06_22_1_users.sql", dir + "/2024_06_22_2_logins.sql";
    var e0, e1, e2 := Entry(".", ".", true), Entry(dir, dir, true), Entry(dir + "/README.md", "README.md", false);
    var e3 := Entry(logins, "2024_06_22_2_logins.sql", false);
    var e4 := Entry(users, "2024_06_22_1_users.sql", false);
    var l4 := [e4] + [];
    var l3 := [e3] + l4;
    var l2 := [e2] + l3;
    var l1 := [e1] + l2;
    var l0 := [e0] + l1;
    assert Fixture(dir, loginsSql).walk.value == l0;
    FixtureKinds(dir);
    CandidatesCons(e4, []);
    assert Candidates(l4) == [users];
    CandidatesCons(e3, l4);
    assert Candidates(l3) == [logins, users];
    CandidatesCons(e2, l3);
    CandidatesCons(e1, l2);
    CandidatesCons(e0, l1);
  }

  /** Discovery orders the users migration before the logins migration. */
  lemma FixtureDiscovery(dir: string, loginsSql: string)
    ensures Discover(Fixture(dir, loginsSql).walk.value) ==
      [dir + "/2024_06_22_1_users.sql", dir + "/2024_06_22_2_logins.sql"]
  {
    var entries := Fixture(dir, loginsSql).walk.value;
    var stem := dir + "/2024_06_22_";
    var users, logins := stem + "1_users.sql", stem + "2_logins.sql";
    assert users == dir + "/2024_06_22_1_users.sql";
    assert logins == dir + "/2024_06_22_2_logins.sql";
    FixtureCandidates(dir, loginsSql);
    LessEqAfterPrefix(stem, "1_users.sql", "2_logins.sql");
    assert multiset([users, logins]) == multiset([logins, users]);
    DiscoverIsTheSortedOrder(entries, [users, logins]);
  }

  /** The statement texts differ, so only the broken one is rejected. */
  lemma SqlDistinct()
    ensures UsersSql != BrokenSql && LoginsSql != BrokenSql
  {
    assert UsersSql[13] == 'u' && BrokenSql[13] == 'l';
    assert |LoginsSql| != |BrokenSql|;
  }

  lemma FixtureAttempts(dir: string, loginsSql: string)
    requires loginsSql != BrokenSql
    ensures var src := Fixture(dir, loginsSql);
      && Attempt(dir + "/2024_06_22_1_users.sql", src.files, RejectsBroken) == Done(UsersSql)
      && Attempt(dir + "/2024_06_22_2_logins.sql", src.files, RejectsBroken) == Done(loginsSql)
  {
    SqlDistinct();
  }

  /** Applying both migrations in turn executes and logs each. */
  lemma FixtureTrail(dir: string)
    ensures var users, logins := dir + "/2024_06_22_1_users.sql", dir + "/2024_06_22_2_logins.sql";
      Trail([users, logins], Fixture(dir, LoginsSql).files, RejectsBroken) ==
        [Executed(UsersSql), Logged(users), Executed(LoginsSql), Logged(logins)]
  {
    var users, logins := dir + "/2024_06_22_1_users.sql", dir + "/2024_06_22_2_logins.sql";
    var P := [users, logins];
    SqlDistinct();
    FixtureAttempts(dir, LoginsSql);
    assert P[..1] == [users] && [users][..0] == [];
    assert Trail(P[..1], Fixture(dir, LoginsSql).files, RejectsBroken) == [Executed(UsersSql), Logged(users)];
  }

  /**
   * On a fresh database the log table is created and both migrations of
   * `dir` are applied and logged, users first.
   */
  lemma InsertsLogs(dir: string)
    ensures var users, logins := dir + "/2024_06_22_1_users.sql", dir + "/2024_06_22_2_logins.sql";
      var o := Run(Fixture(dir, LoginsSql), RejectsBroken, [], []);
      && o.result == Ok([users, logins])
      && o.ensured
      && o.log == [users, logins]
      && o.history == [Executed(UsersSql), Logged(users), Executed(LoginsSql), Logged(logins)]
  {
    var src := Fixture(dir, LoginsSql);
    var users, logins := dir + "/2024_06_22_1_users.sql", dir + "/2024_06_22_2_logins.sql";
    var P := [users, logins];
    FixtureDiscovery(dir, LoginsSql);
    PendingOfEmptyLog(P);
    FixtureAttempts(dir, LoginsSql);
    SuccessAppliesAllPending(src, RejectsBroken, [], []);
    FixtureTrail(dir);
  }

  /** Migrating the same directory a second time applies and logs nothing. */
  lemma SecondRunAppliesNothing(dir: string)
    ensures var src := Fixture(dir, LoginsSql);
      var o := Run(src, RejectsBroken, [], []);
      Run(src, RejectsBroken, o.log, o.history) == RunOutcome(Ok([]), true, o.log, o.history)
  {
    InsertsLogs(dir);
    RerunIsNoOp(Fixture(dir, LoginsSql), RejectsBroken, [], []);
  }

  /**
   * When the logins migration of `dir` does not execute, the run fails
   * naming it, and only the users migration is executed and logged.
   */
  lemma StopsAfterBadFile(dir: string)
    ensures var users, logins := dir + "/2024_06_22_1_users.sql", dir + "/2024_06_22_2_logins.sql";
      var o := Run(Fixture(dir, BrokenSql), RejectsBroken, [], []);
      && o.result == Err(ExecError(logins))
      && o.log == [users]
      && o.history == [Executed(UsersSql), Logged(users)]
  {
    var src := Fixture(dir, BrokenSql);
    var users, logins := dir + "/2024_06_22_1_users.sql", dir + "/2024_06_22_2_logins.sql";
    var P := [users, logins];
    FixtureDiscovery(dir, BrokenSql);
    SqlDistinct();
    assert Attempt(users, src.files, RejectsBroken) == Done(UsersSql);
    assert Attempt(logins, src.files, RejectsBroken) == Halted(ExecError(logins), []);
    assert P[..1] == [users] && [users][..0] == [];
    assert Apply(P[..1], [], src.files, RejectsBroken, [], [])
        == Progress([users], [Executed(UsersSql), Logged(users)], [users], None);
  }
}
