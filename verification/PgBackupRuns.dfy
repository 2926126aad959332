/** A backup run as each of its databases sees it: what PgBackupRunner leaves of a
    latch is what ContinuityRuns' steps make of it, so what is proved there over
    every history holds of the runs the agent makes. */
module PgBackupRuns {
  import opened Continuity
  import opened BackupChoice
  import opened PgBackupRunner
  import opened ContinuityRuns

  /** The attempt as the start of a run. */
  function Starting(db: Database, a: Attempt, readable: bool): Step
    requires Reached(a)
  {
    StartRun(Filled(db, a.identity.value), readable, a.save, a.before.value, a.now)
  }

  function Ending(stored: Stored, db: Database, a: Attempt, m: Marking, readable: bool): seq<Step>
    requires Reached(a)
  {
    if OwnType(stored, db, a).Full? then [FullIsAccepted(readable, m.observeSave, m.clearSave)] else []
  }

  /** The attempt reads the log as it is in `s`. */
  predicate Reads(s: State, db: Database, a: Attempt, readable: bool) {
    && Reached(a) && PathOf(db) == s.path && Sound(LogOf(s.logs, db.containerID))
    && a.log == ReadLog(s, db.containerID, readable)
  }

  lemma AnAttemptStarts(s: State, db: Database, a: Attempt, readable: bool)
    requires Reads(s, db, a, readable)
    ensures var step := Starting(db, a, readable);
            && Allowed(s, step)
            && var next := Next(s, step);
               && next.file == OwnCheck(s.file, db, a).stored
               && next.running == (if OwnType(s.file, db, a).Full?
                                   then Some(FullRun(Filled(db, a.identity.value), OwnCheck(s.file, db, a).version, s.logs))
                                   else None)
  {
  }

  /** Only the log moves. */
  predicate LogMoves(steps: seq<Step>) {
    forall i :: 0 <= i < |steps| ==> steps[i].WriteLine? || steps[i].LoseLines?
  }

  lemma {:induction false} TheLogMovesAlone(s: State, steps: seq<Step>)
    requires AllAllowed(s, steps) && LogMoves(steps)
    ensures After(s, steps) == s.(logs := After(s, steps).logs)
    decreases |steps|
  {
    if steps != [] {
      TheLogMovesAlone(Next(s, steps[0]), steps[1..]);
    }
  }

  lemma {:induction false} Then(s: State, first: seq<Step>, rest: seq<Step>)
    requires AllAllowed(s, first) && AllAllowed(After(s, first), rest)
    ensures AllAllowed(s, first + rest) && After(s, first + rest) == After(After(s, first), rest)
    decreases |first|
  {
    if first == [] {
      assert first + rest == rest;
    } else {
      Then(Next(s, first[0]), first[1..], rest);
      assert (first + rest)[1..] == first[1..] + rest;
    }
  }

  /** The marking of this database reads the log as it is in `t`. */
  predicate MarkReads(t: State, db: Database, m: Marking, readable: bool) {
    Sound(LogOf(t.logs, db.containerID)) && m.log == ReadLog(t, db.containerID, readable)
  }

  /** A run that is accepted: the start, whatever the log does until the server
      accepts it, and the acceptance of a full. */
  lemma AcceptedRunIsAHistory(s: State, db: Database, a: Attempt, readable: bool,
                              meanwhile: seq<Step>, m: Marking, later: bool)
    requires Reads(s, db, a, readable)
    requires LogMoves(meanwhile) && AllAllowed(Next(s, Starting(db, a, readable)), meanwhile)
    requires MarkReads(After(Next(s, Starting(db, a, readable)), meanwhile), db, m, later)
    ensures var steps := [Starting(db, a, readable)] + meanwhile + Ending(s.file, db, a, m, later);
            AllAllowed(s, steps) && After(s, steps).file == Accepted(s.file, db, a, m)
  {
    var start := Starting(db, a, readable);
    var ending := Ending(s.file, db, a, m, later);
    AnAttemptStarts(s, db, a, readable);
    var t := After(Next(s, start), meanwhile);
    TheLogMovesAlone(Next(s, start), meanwhile);
    OneMore(s, start, meanwhile);
    if ending != [] {
      OneMore(t, ending[0], []);
      assert ending == [ending[0]] + [];
    }
    Then(s, [start] + meanwhile, ending);
  }

  /** One that is not: the start, whatever the log does, and the end. */
  lemma FailedRunIsAHistory(s: State, db: Database, a: Attempt, readable: bool, meanwhile: seq<Step>)
    requires Reads(s, db, a, readable)
    requires LogMoves(meanwhile) && AllAllowed(Next(s, Starting(db, a, readable)), meanwhile)
    ensures var steps := [Starting(db, a, readable)] + meanwhile + [RunFails];
            AllAllowed(s, steps) && After(s, steps).file == OwnCheck(s.file, db, a).stored
  {
    var start := Starting(db, a, readable);
    AnAttemptStarts(s, db, a, readable);
    TheLogMovesAlone(Next(s, start), meanwhile);
    OneMore(s, start, meanwhile);
    var t := After(Next(s, start), meanwhile);
    OneMore(t, RunFails, []);
    assert [RunFails] + [] == [RunFails];
    Then(s, [start] + meanwhile, [RunFails]);
  }

  /** What the agent's own differentials are worth. */
  lemma ADifferentialTakenIsSafe(s: State, db: Database, a: Attempt, readable: bool)
    requires Inv(s) && Reads(s, db, a, readable) && OwnType(s.file, db, a).Diff?
    ensures s.accepted.Some? && NoGapSince(s, db.containerID, s.accepted.value)
  {
    AnAttemptStarts(s, db, a, readable);
    InvIsSafe(s);
    var run := Starting(db, a, readable);
    assert AllAllowed(s, []) && !IsWrong(After(s, []), run);
  }
}
