/**
 * What a run of `Migrate` promises, proved about its specification `Run`
 * (to which `Migration.Migrate` is tied by its postcondition).
 */
module MigrationProperties {
  import opened Sorting
  import opened Migration

  // ---------------------------------------------------------------------
  // The apply loop
  // ---------------------------------------------------------------------

  lemma PendingStep(ms: seq<string>, existing: seq<string>)
    requires ms != []
    ensures Pending(ms, existing) ==
      Pending(ms[..|ms| - 1], existing) + (if ms[|ms| - 1] in existing then [] else [ms[|ms| - 1]])
  {
  }

  lemma TrailStep(ps: seq<string>, m: string, files: map<string, FileData>, faults: Faults)
    ensures Trail(ps + [m], files, faults) == Trail(ps, files, faults) +
      match Attempt(m, files, faults)
      case Done(sql) => [Executed(sql), Logged(m)]
      case Halted(_, ran) => ran
  {
    assert (ps + [m])[..|ps|] == ps;
  }

  /**
   * `p` applied a prefix of the pending candidates `P`, every one of which
   * succeeded, and appended exactly those to the log; it stopped after the
   * last of them or at the first whose attempt halted, keeping its error.
   */
  ghost predicate LoopShape(P: seq<string>, p: Progress, files: map<string, FileData>, faults: Faults,
                            log: seq<string>, history: seq<Effect>)
  {
    var k := |p.applied|;
    && k <= |P| && p.applied == P[..k]
    && p.log == log + p.applied
    && (forall j :: 0 <= j < k ==> Attempt(P[j], files, faults).Done?)
    && (p.failure.None? ==> k == |P| && p.history == history + Trail(P, files, faults))
    && (p.failure.Some? ==>
          && k < |P|
          && Attempt(P[k], files, faults).Halted?
          && p.failure.value == Attempt(P[k], files, faults).error
          && p.history == history + Trail(P[..k + 1], files, faults))
  }

  lemma ShapeAfterFailure(P0: seq<string>, P: seq<string>, p: Progress, files: map<string, FileData>,
                          faults: Faults, log: seq<string>, history: seq<Effect>)
    requires LoopShape(P0, p, files, faults, log, history) && p.failure.Some?
    requires |P0| <= |P| && P[..|P0|] == P0
    ensures LoopShape(P, p, files, faults, log, history)
  {
    var k := |p.applied|;
    assert P[..k] == P0[..k] && P[..k + 1] == P0[..k + 1];
    assert forall j :: 0 <= j <= k ==> P[j] == P0[j];
  }

  lemma ShapeAfterHalt(P0: seq<string>, m: string, p: Progress, files: map<string, FileData>,
                       faults: Faults, log: seq<string>, history: seq<Effect>)
    requires LoopShape(P0, p, files, faults, log, history) && p.failure.None?
    requires Attempt(m, files, faults).Halted?
    ensures var step := Attempt(m, files, faults);
      LoopShape(P0 + [m], p.(history := p.history + step.ran, failure := Some(step.error)),
                files, faults, log, history)
  {
    var P := P0 + [m];
    var k := |p.applied|;
    var step := Attempt(m, files, faults);
    TrailStep(P0, m, files, faults);
    assert P[..k] == P0 && P[..k + 1] == P;
    assert forall j :: 0 <= j < k ==> P[j] == P0[j];
    assert (history + Trail(P0, files, faults)) + step.ran == history + (Trail(P0, files, faults) + step.ran);
  }

  lemma ShapeAfterDone(P0: seq<string>, m: string, p: Progress, files: map<string, FileData>,
                       faults: Faults, log: seq<string>, history: seq<Effect>)
    requires LoopShape(P0, p, files, faults, log, history) && p.failure.None?
    requires Attempt(m, files, faults).Done?
    ensures var sql := Attempt(m, files, faults).sql;
      LoopShape(P0 + [m], Progress(p.log + [m], p.history + [Executed(sql), Logged(m)], p.applied + [m], None),
                files, faults, log, history)
  {
    var P := P0 + [m];
    var sql := Attempt(m, files, faults).sql;
    TrailStep(P0, m, files, faults);
    assert P[..|P|] == P;
    assert forall j :: 0 <= j < |P0| ==> P[j] == P0[j];
    assert (log + p.applied) + [m] == log + (p.applied + [m]);
    assert (history + Trail(P0, files, faults)) + [Executed(sql), Logged(m)]
        == history + (Trail(P0, files, faults) + [Executed(sql), Logged(m)]);
  }

  /** The apply loop has the shape `LoopShape` describes, over the pending candidates. */
  lemma {:induction false} ApplyShape(ms: seq<string>, existing: seq<string>, files: map<string, FileData>,
                                       faults: Faults, log: seq<string>, history: seq<Effect>)
    ensures LoopShape(Pending(ms, existing), Apply(ms, existing, files, faults, log, history),
                      files, faults, log, history)
    decreases |ms|
  {
    if ms != [] {
      var init, m := ms[..|ms| - 1], ms[|ms| - 1];
      ApplyShape(init, existing, files, faults, log, history);
      PendingStep(ms, existing);
      var prev := Apply(init, existing, files, faults, log, history);
      var P0 := Pending(init, existing);
      if prev.failure.Some? {
        ShapeAfterFailure(P0, Pending(ms, existing), prev, files, faults, log, history);
      } else if m !in existing {
        if Attempt(m, files, faults).Halted? {
          ShapeAfterHalt(P0, m, prev, files, faults, log, history);
        } else {
          ShapeAfterDone(P0, m, prev, files, faults, log, history);
        }
      }
    }
  }

  // ---------------------------------------------------------------------
  // Discovery and the pending set
  // ---------------------------------------------------------------------

  /** Whatever sorting algorithm orders the candidates, the result is `Discover`'s. */
  lemma DiscoverIsTheSortedOrder(entries: seq<Entry>, order: seq<string>)
    requires Sorted(order) && multiset(order) == multiset(Candidates(entries))
    ensures order == Discover(entries)
  {
    SortedPermutationUnique(order, Discover(entries));
  }

  /** No path occurs twice. */
  ghost predicate NoRepeats(s: seq<string>) {
    forall p :: multiset(s)[p] <= 1
  }

  /** Distinct walk paths give distinct candidates. */
  lemma {:induction false} CandidatesNoRepeats(entries: seq<Entry>)
    requires forall i, j :: 0 <= i < j < |entries| ==> entries[i].path != entries[j].path
    ensures NoRepeats(Candidates(entries))
    decreases |entries|
  {
    if entries != [] {
      var rest := entries[1..];
      assert forall i :: 0 <= i < |rest| ==> rest[i] == entries[i + 1];
      CandidatesNoRepeats(rest);
      CandidatesMembership(rest);
      if IsCandidate(entries[0]) {
        assert entries[0].path !in Candidates(rest);
        assert Candidates(entries) == [entries[0].path] + Candidates(rest);
        assert multiset(Candidates(entries)) == multiset{entries[0].path} + multiset(Candidates(rest));
      }
    }
  }

  /** A prefix holds no more of each path than the whole. */
  lemma PrefixMultiset(s: seq<string>, k: nat)
    requires k <= |s|
    ensures multiset(s[..k]) <= multiset(s)
  {
    assert s == s[..k] + s[k..];
  }

  lemma PrefixSorted(s: seq<string>, k: nat)
    requires Sorted(s) && k <= |s|
    ensures Sorted(s[..k])
  {
  }

  /** Skipping logged candidates keeps the rest in order. */
  lemma {:induction false} PendingSorted(ms: seq<string>, existing: seq<string>)
    requires Sorted(ms)
    ensures Sorted(Pending(ms, existing))
    decreases |ms|
  {
    if ms != [] {
      var init, m := ms[..|ms| - 1], ms[|ms| - 1];
      PendingStep(ms, existing);
      PendingSorted(init, existing);
      var rest := Pending(init, existing);
      if m !in existing {
        var ps := rest + [m];
        forall i, j | 0 <= i < j < |ps|
          ensures LessEq(ps[i], ps[j])
        {
          if j == |rest| {
            assert ps[i] == rest[i] && rest[i] in init;
            var q :| 0 <= q < |init| && init[q] == rest[i];
            assert ms[q] == rest[i];
          } else {
            assert ps[i] == rest[i] && ps[j] == rest[j];
          }
        }
      }
    }
  }

  /** Against an empty log every candidate is pending. */
  lemma {:induction false} PendingOfEmptyLog(ms: seq<string>)
    ensures Pending(ms, []) == ms
    decreases |ms|
  {
    if ms != [] {
      PendingStep(ms, []);
      PendingOfEmptyLog(ms[..|ms| - 1]);
      assert ms == ms[..|ms| - 1] + [ms[|ms| - 1]];
    }
  }

  // ---------------------------------------------------------------------
  // A run of Migrate
  // ---------------------------------------------------------------------

  /**
   * A walk, ensure-log or log-read error happens exactly when the source or
   * the database fails before the apply loop, and then nothing is executed
   * or logged.
   */
  lemma SetupFailureChangesNothing(src: Source, faults: Faults, log: seq<string>, history: seq<Effect>)
    ensures var o := Run(src, faults, log, history);
      (src.walk.None? || faults.ensureFails || faults.selectFails)
        <==> (o.result.Err? && !o.result.error.IsApplyStage())
    ensures var o := Run(src, faults, log, history);
      o.result.Err? && !o.result.error.IsApplyStage() ==> o.log == log && o.history == history
  {
    if src.walk.Some? {
      ApplyShape(Discover(src.walk.value), log, src.files, faults, log, history);
    }
  }

  /**
   * A run succeeds exactly when setup succeeds and every pending candidate
   * can be read, executed and checkpointed.  It then returns the pending
   * candidates in path order, appends exactly them to the log, each
   * executed just before it is logged, and leaves every candidate logged.
   */
  lemma SuccessAppliesAllPending(src: Source, faults: Faults, log: seq<string>, history: seq<Effect>)
    requires src.walk.Some?
    ensures var o := Run(src, faults, log, history);
            var P := Pending(Discover(src.walk.value), log);
      o.result.Ok? <==>
        !faults.ensureFails && !faults.selectFails && forall p :: p in P ==> Attempt(p, src.files, faults).Done?
    ensures var o := Run(src, faults, log, history);
            var P := Pending(Discover(src.walk.value), log);
      o.result.Ok? ==>
        && o.result.value == P
        && o.log == log + P
        && o.history == history + Trail(P, src.files, faults)
        && forall c :: c in Discover(src.walk.value) ==> c in o.log
  {
    ApplyShape(Discover(src.walk.value), log, src.files, faults, log, history);
  }

  /**
   * A run that fails in the apply loop failed at the first pending
   * candidate whose attempt halts: the log gained exactly the candidates
   * before it, the error names it, and nothing after it was executed.
   */
  lemma FailureHaltsAtFirstBadMigration(src: Source, faults: Faults, log: seq<string>, history: seq<Effect>)
    requires Run(src, faults, log, history).result.Err?
    requires Run(src, faults, log, history).result.error.IsApplyStage()
    ensures src.walk.Some?
    ensures var o := Run(src, faults, log, history);
            var P := Pending(Discover(src.walk.value), log);
            var k := |o.log| - |log|;
      && 0 <= k < |P|
      && o.log == log + P[..k]
      && (forall j :: 0 <= j < k ==> Attempt(P[j], src.files, faults).Done?)
      && Attempt(P[k], src.files, faults).Halted?
      && o.result.error == Attempt(P[k], src.files, faults).error
      && o.result.error.path == P[k]
      && o.history == history + Trail(P[..k + 1], src.files, faults)
  {
    SetupFailureChangesNothing(src, faults, log, history);
    ApplyShape(Discover(src.walk.value), log, src.files, faults, log, history);
  }

  /** Right after a successful run, a second run applies nothing and changes nothing. */
  lemma RerunIsNoOp(src: Source, faults: Faults, log: seq<string>, history: seq<Effect>)
    requires Run(src, faults, log, history).result.Ok?
    ensures var o := Run(src, faults, log, history);
      Run(src, faults, o.log, o.history) == RunOutcome(Ok([]), true, o.log, o.history)
  {
    var o := Run(src, faults, log, history);
    SetupFailureChangesNothing(src, faults, log, history);
    SuccessAppliesAllPending(src, faults, log, history);
    var D := Discover(src.walk.value);
    NothingPendingOnceLogged(D, o.log);
    ApplyShape(D, o.log, src.files, faults, o.log, o.history);
  }

  lemma NothingPendingOnceLogged(ms: seq<string>, log: seq<string>)
    requires forall c :: c in ms ==> c in log
    ensures Pending(ms, log) == []
  {
  }

  /**
   * A path is logged at most once: if the walk visits each path once and
   * the log holds no path twice, the run leaves no path in it twice.
   */
  lemma LogHoldsEachPathOnce(src: Source, faults: Faults, log: seq<string>, history: seq<Effect>)
    requires src.walk.Some? ==>
      forall i, j :: 0 <= i < j < |src.walk.value| ==> src.walk.value[i].path != src.walk.value[j].path
    requires NoRepeats(log)
    ensures NoRepeats(Run(src, faults, log, history).log)
  {
    var o := Run(src, faults, log, history);
    SetupFailureChangesNothing(src, faults, log, history);
    if o.log != log {
      var D := Discover(src.walk.value);
      var P := Pending(D, log);
      ApplyShape(D, log, src.files, faults, log, history);
      var A := o.log[|log|..];
      assert o.log == log + A;
      var k := |A|;
      assert A == P[..k];
      CandidatesNoRepeats(src.walk.value);
      PrefixMultiset(P, k);
      forall x
        ensures multiset(o.log)[x] <= 1
      {
        if x in A {
          assert x in P;
          assert multiset(log)[x] == 0;
        } else {
          assert multiset(A)[x] == 0;
        }
      }
    }
  }

  /** The log only grows, and what a run appends is in path order. */
  lemma AppendsInPathOrder(src: Source, faults: Faults, log: seq<string>, history: seq<Effect>)
    ensures var o := Run(src, faults, log, history);
      |log| <= |o.log| && o.log[..|log|] == log && Sorted(o.log[|log|..])
  {
    var o := Run(src, faults, log, history);
    SetupFailureChangesNothing(src, faults, log, history);
    if o.log != log {
      var D := Discover(src.walk.value);
      ApplyShape(D, log, src.files, faults, log, history);
      PendingSorted(D, log);
      var P := Pending(D, log);
      var k := |o.log| - |log|;
      PrefixSorted(P, k);
      assert o.log[|log|..] == P[..k];
    }
  }

  /** On a fresh database a successful run logs every candidate, in path order. */
  lemma FreshDatabaseLogsAllInOrder(src: Source, faults: Faults, history: seq<Effect>)
    requires Run(src, faults, [], history).result.Ok?
    ensures src.walk.Some?
    ensures Run(src, faults, [], history).result.value == Discover(src.walk.value)
    ensures Run(src, faults, [], history).log == Discover(src.walk.value)
  {
    SetupFailureChangesNothing(src, faults, [], history);
    SuccessAppliesAllPending(src, faults, [], history);
    PendingOfEmptyLog(Discover(src.walk.value));
  }
}
