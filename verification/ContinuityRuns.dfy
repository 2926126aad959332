/** Every history of one database's latch: log lines are written and lost,
    backup runs check, are accepted or fail, while the saved latch survives.

    The main result is DifferentialIsSafe: a differential backup is chosen only
    if the database container logged no dropped-WAL line between the Check of
    the last accepted full backup and this run's Check. */
module ContinuityRuns {
  import opened Continuity
  import opened BackupChoice

  /** A container's log: every line ever written, and how many were lost from
      the front by rotation or truncation. */
  datatype Log = Log(written: seq<string>, head: nat)

  type Logs = map<string, Log>

  function LogOf(logs: Logs, c: string): Log {
    if c in logs then logs[c] else Log([], 0)
  }

  predicate Sound(log: Log) {
    log.head <= |log.written| && forall i, j :: 0 <= i < j < |log.written| ==> log.written[i] != log.written[j]
  }

  function Visible(log: Log): seq<string>
    requires log.head <= |log.written|
  {
    log.written[log.head..]
  }

  /** A full backup under way: what its Check returned, and every log as it was
      at that moment. */
  datatype FullRun = FullRun(db: Database, version: nat, logs: Logs)

  /** `seen` and `accepted` are history: how far into the bound container's log
      the latch has observed, and the logs at the Check of the last full the
      server accepted. */
  datatype State = State(
    path: Path, file: Stored, logs: Logs, seen: nat,
    running: Option<FullRun>, accepted: Option<Logs>)

  datatype Step =
    | WriteLine(container: string, line: string)
    | LoseLines(container: string, n: nat)
    | StartRun(db: Database, readable: bool, save: SaveOutcome, sets: seq<BackupSet>, now: int)
    | FullIsAccepted(readable: bool, observeSave: SaveOutcome, clearSave: SaveOutcome)
    | RunFails

  function ReadLog(s: State, c: string, readable: bool): LogRead
    requires Sound(LogOf(s.logs, c))
  {
    if readable then Lines(Visible(LogOf(s.logs, c))) else LogError
  }

  /** How far the latch has observed once an observation of `c` is saved. */
  function SeenAfter(s: State, c: string, readable: bool, save: SaveOutcome): nat {
    if save.NotWritten? then s.seen
    else if readable then |LogOf(s.logs, c).written|
    else LogOf(s.logs, c).head
  }

  function ChosenType(s: State, db: Database, readable: bool, save: SaveOutcome, sets: seq<BackupSet>, now: int): BackupType
    requires Sound(LogOf(s.logs, db.containerID))
  {
    var c := CheckSpec(s.file, db, ReadLog(s, db.containerID, readable), save);
    ChooseType(sets, db.timeline, c.known && !c.failed, now, FULL_INTERVAL)
  }

  /** Log lines are distinct, a run is about this latch's volume, only a full
      under way can be accepted, and a log loses lines only from its front.
      While the latch has observed nothing of its container's log (its cursor
      is zero), the lines lost must not hold a dropped-WAL warning: this is
      what the code does not see (CursorZeroCanMissAGap). */
  predicate Allowed(s: State, step: Step) {
    match step
    case WriteLine(c, line) => Sound(LogOf(s.logs, c)) && line !in LogOf(s.logs, c).written
    case LoseLines(c, n) =>
      var log := LogOf(s.logs, c);
      && Sound(log) && log.head + n <= |log.written|
      && (s.file.Saved? && s.file.latch.containerID == c && s.file.latch.lines == 0
          ==> NoGapIn(log.written, log.head, log.head + n))
    case StartRun(db, _, _, _, _) => PathOf(db) == s.path && Sound(LogOf(s.logs, db.containerID))
    case FullIsAccepted(_, _, _) => s.running.Some? && Sound(LogOf(s.logs, s.running.value.db.containerID))
    case RunFails => true
  }

  function Next(s: State, step: Step): State
    requires Allowed(s, step)
  {
    match step
    case WriteLine(c, line) =>
      var log := LogOf(s.logs, c);
      s.(logs := s.logs[c := log.(written := log.written + [line])])
    case LoseLines(c, n) =>
      var log := LogOf(s.logs, c);
      s.(logs := s.logs[c := log.(head := log.head + n)])
    case StartRun(db, readable, save, sets, now) =>
      var c := CheckSpec(s.file, db, ReadLog(s, db.containerID, readable), save);
      s.(file := c.stored,
         seen := SeenAfter(s, db.containerID, readable, save),
         running := if ChosenType(s, db, readable, save, sets, now).Full?
                    then Some(FullRun(db, c.version, s.logs)) else None)
    case FullIsAccepted(readable, s1, s2) =>
      var r := s.running.value;
      var a := FullAcceptedSpec(s.file, r.db, r.version, ReadLog(s, r.db.containerID, readable), s1, s2);
      s.(file := a.stored,
         seen := SeenAfter(s, r.db.containerID, readable, s1),
         running := None,
         accepted := Some(r.logs))
    case RunFails => s.(running := None)
  }

  /** A latch file nothing has been written to, or one that cannot be read. */
  predicate Initial(s: State) {
    !s.file.Saved? && s.running.None? && s.accepted.None? && forall c :: c in s.logs ==> Sound(s.logs[c])
  }

  predicate AllAllowed(s: State, steps: seq<Step>)
    decreases |steps|
  {
    steps == [] || (Allowed(s, steps[0]) && AllAllowed(Next(s, steps[0]), steps[1..]))
  }

  function After(s: State, steps: seq<Step>): State
    requires AllAllowed(s, steps)
    decreases |steps|
  {
    if steps == [] then s else After(Next(s, steps[0]), steps[1..])
  }

  predicate NoGapIn(lines: seq<string>, from: int, to: int) {
    forall i :: 0 <= i < |lines| && from <= i < to ==> !ReportsGap(lines[i])
  }

  /** No dropped-WAL line in `c`'s log since the logs were as in `mark`. */
  predicate NoGapSince(s: State, c: string, mark: Logs) {
    var written := LogOf(s.logs, c).written;
    NoGapIn(written, |LogOf(mark, c).written|, |written|)
  }

  predicate Earlier(a: Logs, b: Logs) {
    forall c :: c in a ==> |LogOf(a, c).written| <= |LogOf(b, c).written|
  }

  /** The cursor: where it points, and what a zero cursor has left unobserved. */
  predicate CursorOk(l: Latch, log: Log, seen: nat) {
    && seen <= |log.written|
    && (l.lines > 0 ==> l.lines <= seen && l.lastHash == HashOf(log.written[seen - 1]))
    && (l.lines == 0 ==> seen <= log.head && NoGapIn(log.written, seen, log.head))
  }

  predicate FileOk(s: State) {
    s.file.Saved? ==>
      var l := s.file.latch;
      var log := LogOf(s.logs, l.containerID);
      && l.version > 0
      && CursorOk(l, log, s.seen)
      && (!l.latched ==>
            && s.accepted.Some?
            && NoGapIn(log.written, |LogOf(s.accepted.value, l.containerID).written|, s.seen))
  }

  predicate RunOk(s: State) {
    s.running.Some? ==>
      var r := s.running.value;
      && Earlier(r.logs, s.logs)
      && (s.accepted.Some? ==> Earlier(s.accepted.value, r.logs))
      && r.version <= (if s.file.Saved? then s.file.latch.version else 0)
      && (s.file.Saved? && s.file.latch.version == r.version && s.file.latch.latched ==>
            && BoundTo(s.file.latch, r.db)
            && NoGapIn(LogOf(s.logs, r.db.containerID).written, |LogOf(r.logs, r.db.containerID).written|, s.seen))
  }

  predicate Inv(s: State) {
    && (forall c :: c in s.logs ==> Sound(s.logs[c]))
    && (s.accepted.Some? ==> Earlier(s.accepted.value, s.logs))
    && FileOk(s)
    && RunOk(s)
  }

  lemma ObservationReachesTheEnd(stored: Stored, db: Database, log: Log)
    requires Sound(log)
    ensures CursorOk(Observed(stored, db, Lines(Visible(log))), log, |log.written|)
  {
  }

  /** An observation that raises no event resumed where the latch left off, and
      found no dropped-WAL line from there on. */
  lemma UneventfulObservation(stored: Stored, db: Database, log: Log, seen: nat)
    requires Sound(log)
    requires stored.Saved? && BoundTo(stored.latch, db) ==> CursorOk(stored.latch, log, seen)
    ensures var l := Observed(stored, db, Lines(Visible(log)));
            !l.latched || (stored.Saved? && l.version == stored.latch.version) ==>
              && stored.Saved? && BoundTo(stored.latch, db) && l.latched == stored.latch.latched
              && l.version == stored.latch.version && NoGapIn(log.written, seen, |log.written|)
  {
  }

  /** The heart of the argument: whatever an observation leaves unlatched, or at
      the version it had, has no dropped-WAL line in anything not seen before. */
  lemma ObservationSeesEverything(s: State, db: Database)
    requires Inv(s)
    ensures var log := LogOf(s.logs, db.containerID);
            var l := Observed(s.file, db, Lines(Visible(log)));
            && CursorOk(l, log, |log.written|)
            && (!l.latched || (s.file.Saved? && l.version == s.file.latch.version) ==>
                  && s.file.Saved? && BoundTo(s.file.latch, db) && l.latched == s.file.latch.latched
                  && l.version == s.file.latch.version
                  && NoGapIn(log.written, s.seen, |log.written|))
  {
    var log := LogOf(s.logs, db.containerID);
    assert Sound(log);
    ObservationReachesTheEnd(s.file, db, log);
    UneventfulObservation(s.file, db, log, s.seen);
  }

  /** `s` once the observation of `db`'s log has been saved. */
  function Observing(s: State, db: Database, readable: bool): State
    requires Sound(LogOf(s.logs, db.containerID))
  {
    s.(file := Saved(Observed(s.file, db, ReadLog(s, db.containerID, readable))),
       seen := SeenAfter(s, db.containerID, readable, Durable))
  }

  lemma {:induction false} ObservingKeepsFile(s: State, db: Database, readable: bool)
    requires Inv(s)
    ensures FileOk(Observing(s, db, readable))
  {
    ObservationOnlyLatches(s.file, db, ReadLog(s, db.containerID, readable));
    if readable {
      ObservationSeesEverything(s, db);
    }
  }

  /** A full that starts now, at the version the observation arrived at. */
  lemma StartingAFull(s: State, db: Database, readable: bool, version: nat)
    requires Inv(s)
    requires version == Observing(s, db, readable).file.latch.version || version == 0
    ensures RunOk(Observing(s, db, readable).(running := Some(FullRun(db, version, s.logs))))
  {
  }

  lemma ObservingKeepsTheRun(s: State, readable: bool)
    requires Inv(s) && s.running.Some?
    ensures RunOk(Observing(s, s.running.value.db, readable))
  {
    var db := s.running.value.db;
    ObservationOnlyLatches(s.file, db, ReadLog(s, db.containerID, readable));
    if readable {
      ObservationSeesEverything(s, db);
    }
  }

  lemma {:induction false} StartRunKeeps(s: State, step: Step)
    requires Inv(s) && step.StartRun? && Allowed(s, step)
    ensures Inv(Next(s, step))
  {
    var next := Next(s, step);
    var o := Observing(s, step.db, step.readable);
    var version := if step.save.Durable? then o.file.latch.version else 0;
    assert next.running.None? || next.running == Some(FullRun(step.db, version, s.logs));
    if step.save.NotWritten? {
      assert next.file == s.file && next.seen == s.seen && next.logs == s.logs;
      assert FileOk(next);
    } else {
      assert next.file == o.file && next.seen == o.seen && next.logs == s.logs;
      ObservingKeepsFile(s, step.db, step.readable);
      StartingAFull(s, step.db, step.readable, version);
      assert FileOk(next);
    }
  }

  /** Clearing the latch the accepted full started at. */
  lemma ClearingIsSafe(o: State)
    requires Inv(o) && o.running.Some? && o.file.Saved?
    requires o.file.latch.latched ==> o.file.latch.version == o.running.value.version
    ensures Inv(o.(file := Saved(o.file.latch.(latched := false)), running := None, accepted := Some(o.running.value.logs)))
  {
  }

  /** Acceptance moves the mark forward, so whatever was gap-free stays so. */
  lemma AcceptingKeeps(o: State)
    requires Inv(o) && o.running.Some?
    ensures Inv(o.(running := None, accepted := Some(o.running.value.logs)))
  {
  }

  /** What an accepted full leaves: the file as it was, or as observed, or that
      with its latch cleared. */
  lemma AcceptanceLeaves(s: State, step: Step)
    requires step.FullIsAccepted? && Allowed(s, step)
    ensures var r := s.running.value;
            var o := Observing(s, r.db, step.readable);
            var l := o.file.latch;
            var next := Next(s, step);
            || next == s.(running := None, accepted := Some(r.logs))
            || next == o.(running := None, accepted := Some(r.logs))
            || (l.latched && l.version == r.version
                && next == o.(file := Saved(l.(latched := false)), running := None, accepted := Some(r.logs)))
  {
  }

  lemma {:induction false} ObservingKeeps(s: State, readable: bool)
    requires Inv(s) && s.running.Some?
    ensures Inv(Observing(s, s.running.value.db, readable))
  {
    ObservingKeepsFile(s, s.running.value.db, readable);
    ObservingKeepsTheRun(s, readable);
  }

  lemma {:induction false} FullIsAcceptedKeeps(s: State, step: Step)
    requires Inv(s) && step.FullIsAccepted? && Allowed(s, step)
    ensures Inv(Next(s, step))
  {
    var r := s.running.value;
    var o := Observing(s, r.db, step.readable);
    var next := Next(s, step);
    AcceptanceLeaves(s, step);
    ObservingKeeps(s, step.readable);
    if next == s.(running := None, accepted := Some(r.logs)) {
      AcceptingKeeps(s);
    } else if next == o.(running := None, accepted := Some(r.logs)) {
      AcceptingKeeps(o);
    } else {
      ClearingIsSafe(o);
    }
  }

  lemma WriteLineKeeps(s: State, step: Step)
    requires Inv(s) && step.WriteLine? && Allowed(s, step)
    ensures Inv(Next(s, step))
  {
  }

  lemma LoseLinesKeeps(s: State, step: Step)
    requires Inv(s) && step.LoseLines? && Allowed(s, step)
    ensures Inv(Next(s, step))
  {
  }

  lemma {:induction false} StepKeeps(s: State, step: Step)
    requires Inv(s) && Allowed(s, step)
    ensures Inv(Next(s, step))
  {
    match step
    case WriteLine(_, _) => WriteLineKeeps(s, step);
    case LoseLines(_, _) => LoseLinesKeeps(s, step);
    case StartRun(_, _, _, _, _) => StartRunKeeps(s, step);
    case FullIsAccepted(_, _, _) => FullIsAcceptedKeeps(s, step);
    case RunFails =>
  }

  lemma {:induction false} RunKeeps(s: State, steps: seq<Step>)
    requires Inv(s) && AllAllowed(s, steps)
    ensures Inv(After(s, steps))
    decreases |steps|
  {
    if steps != [] {
      StepKeeps(s, steps[0]);
      RunKeeps(Next(s, steps[0]), steps[1..]);
    }
  }

  /** Over every history that starts without a latch: when a run chooses the
      differential, some full was accepted, and since that full's Check the
      container backed up from has logged no dropped WAL. */
  lemma DifferentialIsSafe(s: State, steps: seq<Step>, run: Step)
    requires Initial(s) && AllAllowed(s, steps)
    requires run.StartRun? && Allowed(After(s, steps), run)
    requires ChosenType(After(s, steps), run.db, run.readable, run.save, run.sets, run.now).Diff?
    ensures var now := After(s, steps);
            now.accepted.Some? && NoGapSince(now, run.db.containerID, now.accepted.value)
  {
    RunKeeps(s, steps);
    ObservationSeesEverything(After(s, steps), run.db);
  }

  // ---------------------------------------------------------------- limits

  /** `s` after `n` lines of `c`'s log are lost, whatever they held. */
  function Losing(s: State, c: string, n: nat): State {
    s.(logs := s.logs[c := LogOf(s.logs, c).(head := LogOf(s.logs, c).head + n)])
  }

  /** What the guard of LoseLines is for. An unlatched file whose cursor is zero
      accepts whatever log it finds next: when lines are lost under it and the
      next Check still reports continuity known, the report is right if and
      only if none of the lines lost held a dropped-WAL warning. */
  lemma CursorZeroIsRightExactlyWhen(s: State, db: Database, n: nat)
    requires Inv(s) && s.file.Saved? && !s.file.latch.latched && BoundTo(s.file.latch, db)
    requires s.file.latch.lines == 0
    requires LogOf(s.logs, db.containerID).head + n <= |LogOf(s.logs, db.containerID).written|
    requires CheckSpec(s.file, db, ReadLog(Losing(s, db.containerID, n), db.containerID, true), Durable).known
    ensures var log := LogOf(s.logs, db.containerID);
            var mark := |LogOf(s.accepted.value, db.containerID).written|;
            NoGapSince(Losing(s, db.containerID, n), db.containerID, s.accepted.value) <==>
            NoGapIn(log.written, if mark > log.head then mark else log.head, log.head + n)
  {
  }

  const EXAMPLE_DB := Database("u", "v", "1", "00000001", "c")
  const EXAMPLE_SETS := [BackupSet("F", Full, 0, "00000001")]

  lemma TheWarningIsAGap()
    ensures ReportsGap(DROPPED_WAL) && !ReportsGap("ready")
  {
    assert DROPPED_WAL[0..0 + |DROPPED_WAL|] == DROPPED_WAL;
    assert Text.OccursAt(DROPPED_WAL, DROPPED_WAL, 0);
  }

  lemma OneMore(s: State, e: Step, rest: seq<Step>)
    requires Allowed(s, e) && AllAllowed(Next(s, e), rest)
    ensures AllAllowed(s, [e] + rest) && After(s, [e] + rest) == After(Next(s, e), rest)
  {
  }

  lemma ThreeSteps(s: State, e1: Step, e2: Step, e3: Step)
    requires Allowed(s, e1) && Allowed(Next(s, e1), e2) && Allowed(Next(Next(s, e1), e2), e3)
    ensures AllAllowed(s, [e1, e2, e3])
    ensures After(s, [e1, e2, e3]) == Next(Next(Next(s, e1), e2), e3)
  {
    var s1, s2 := Next(s, e1), Next(Next(s, e1), e2);
    OneMore(s2, e3, []);
    assert [e3] + [] == [e3];
    OneMore(s1, e2, [e3]);
    OneMore(s, e1, [e2, e3]);
    assert [e2] + [e3] == [e2, e3] && [e1] + [e2, e3] == [e1, e2, e3];
  }

  const EXAMPLE_LATCH := Latch("u", "v", "1", "00000001", "c", 1, false, 0, NoHash)

  /** The example after a full was accepted on an empty log. */
  const EXAMPLE_CLEAR := State(Path("u", "v"), Saved(EXAMPLE_LATCH), map[], 0, None, Some(map[]))

  lemma ExampleClears(s: State)
    requires s == State(Path("u", "v"), Absent, map[], 0, None, None)
    ensures var e1, e2 := StartRun(EXAMPLE_DB, true, Durable, [], 0), FullIsAccepted(true, Durable, Durable);
            Allowed(s, e1) && Allowed(Next(s, e1), e2) && Next(Next(s, e1), e2) == EXAMPLE_CLEAR
  {
  }

  lemma ExampleLoses()
    ensures var write := WriteLine("c", DROPPED_WAL);
            && Allowed(EXAMPLE_CLEAR, write)
            && Losing(Next(EXAMPLE_CLEAR, write), "c", 1) == EXAMPLE_CLEAR.(logs := map["c" := Log([DROPPED_WAL], 1)])
  {
    assert [] + [DROPPED_WAL] == [DROPPED_WAL];
    var s3 := Next(EXAMPLE_CLEAR, WriteLine("c", DROPPED_WAL));
    assert s3 == EXAMPLE_CLEAR.(logs := map["c" := Log([DROPPED_WAL], 0)]);
  }

  lemma ExampleMisses(lost: State)
    requires lost == EXAMPLE_CLEAR.(logs := map["c" := Log([DROPPED_WAL], 1)])
    ensures ChosenType(lost, EXAMPLE_DB, true, Durable, EXAMPLE_SETS, 0).Diff?
    ensures !NoGapSince(lost, "c", lost.accepted.value)
  {
    TheWarningIsAGap();
    assert Visible(LogOf(lost.logs, "c")) == [];
    assert LogOf(lost.logs, "c").written[0] == DROPPED_WAL;
    assert CheckSpec(lost.file, EXAMPLE_DB, Lines([]), Durable).known;
  }

  /** A full is accepted while the container's log is empty, so the cursor is
      zero; a dropped-WAL line is then written and rotated away. The next run
      chooses the differential all the same. */
  lemma CursorZeroCanMissAGap(s: State)
    requires s == State(Path("u", "v"), Absent, map[], 0, None, None)
    ensures var steps := [StartRun(EXAMPLE_DB, true, Durable, [], 0), FullIsAccepted(true, Durable, Durable),
                          WriteLine("c", DROPPED_WAL)];
            && Initial(s) && AllAllowed(s, steps)
            && var lost := Losing(After(s, steps), "c", 1);
            && lost.accepted.Some? && Sound(LogOf(lost.logs, "c"))
            && ChosenType(lost, EXAMPLE_DB, true, Durable, EXAMPLE_SETS, 0).Diff?
            && !NoGapSince(lost, "c", lost.accepted.value)
  {
    ExampleClears(s);
    ExampleLoses();
    ThreeSteps(s, StartRun(EXAMPLE_DB, true, Durable, [], 0), FullIsAccepted(true, Durable, Durable), WriteLine("c", DROPPED_WAL));
    ExampleMisses(EXAMPLE_CLEAR.(logs := map["c" := Log([DROPPED_WAL], 1)]));
  }

  /** The next run is right about every differential, whatever happens from `s` on. */
  ghost predicate SafeFrom(s: State) {
    forall steps: seq<Step>, run: Step :: AllAllowed(s, steps) ==> !IsWrong(After(s, steps), run)
  }

  /** `run` chooses a differential though its container's log reported a gap since
      the Check of the last accepted full, or though there was none. */
  predicate IsWrong(s: State, run: Step) {
    && run.StartRun? && Allowed(s, run)
    && ChosenType(s, run.db, run.readable, run.save, run.sets, run.now).Diff?
    && !(s.accepted.Some? && NoGapSince(s, run.db.containerID, s.accepted.value))
  }

  lemma InvIsSafe(s: State)
    requires Inv(s)
    ensures SafeFrom(s)
  {
    forall steps: seq<Step>, run: Step | AllAllowed(s, steps) && run.StartRun? && Allowed(After(s, steps), run)
      ensures !IsWrong(After(s, steps), run)
    {
      RunKeeps(s, steps);
      ObservationSeesEverything(After(s, steps), run.db);
    }
  }

  /** The latch file is gone or unreadable while a full is under way. A run is about
      this latch's volume, and a timeline is the eight characters PostgreSQL names. */
  predicate LostUnderWay(s: State) {
    && !s.file.Saved? && s.running.Some? && Inv(s.(running := None))
    && Earlier(s.running.value.logs, s.logs)
    && PathOf(s.running.value.db) == s.path && |s.running.value.db.timeline| == 8
  }

  lemma LosingTheFileUnderWay(s: State, lost: Stored)
    requires Inv(s) && s.running.Some? && !lost.Saved?
    requires PathOf(s.running.value.db) == s.path && |s.running.value.db.timeline| == 8
    ensures LostUnderWay(s.(file := lost))
  {
  }

  /** The full is accepted by a latch that knows nothing of its Check: the new
      latch's version is 1, or 2 if the log it reads holds a warning, and the full
      clears it by coincidence of versions. */
  predicate ClearsUnseen(s: State, accept: Step)
    requires s.running.Some? && accept.FullIsAccepted? && Allowed(s, accept)
  {
    var r := s.running.value;
    && accept.readable && accept.observeSave.Durable? && !accept.clearSave.NotWritten?
    && r.version == if AnyGap(Visible(LogOf(s.logs, r.db.containerID))) then 2 else 1
  }

  lemma ClearedExactlyWhen(s: State, accept: Step)
    requires LostUnderWay(s) && accept.FullIsAccepted? && Allowed(s, accept)
    ensures var file := Next(s, accept).file;
            file.Saved? && !file.latch.latched <==> ClearsUnseen(s, accept)
  {
  }

  /** Lines of the log the full's Check had not seen, lost before the acceptance
      or still there then, hold no warning. */
  predicate UnseenIsClean(s: State)
    requires s.running.Some?
  {
    NoGapSince(s, s.running.value.db.containerID, s.running.value.logs)
  }

  /** A file lost while a full is under way is harmless if and only if that full
      does not clear the latch that replaces it, or no dropped-WAL line was logged
      since its Check. Until it is accepted nothing is decided: a run that starts or
      fails instead is safe. */
  lemma LosingTheFileIsSafeExactlyWhen(s: State, step: Step)
    requires LostUnderWay(s) && Allowed(s, step)
    ensures step.WriteLine? || step.LoseLines? ==> LostUnderWay(Next(s, step))
    ensures step.StartRun? || step.RunFails? ==> SafeFrom(Next(s, step))
    ensures step.FullIsAccepted? ==> (SafeFrom(Next(s, step)) <==> !ClearsUnseen(s, step) || UnseenIsClean(s))
  {
    var next := Next(s, step);
    match step {
      case WriteLine(_, _) =>
      case LoseLines(_, _) =>
      case StartRun(_, _, _, _, _) =>
        StartRunKeeps(s.(running := None), step);
        InvIsSafe(next);
      case RunFails => InvIsSafe(next);
      case FullIsAccepted(_, _, _) =>
        if !ClearsUnseen(s, step) || UnseenIsClean(s) {
          AcceptedUnseenKeeps(s, step);
          InvIsSafe(next);
        } else {
          WrongAfterClearing(s, step);
        }
    }
  }

  lemma AcceptedUnseenKeeps(s: State, accept: Step)
    requires LostUnderWay(s) && accept.FullIsAccepted? && Allowed(s, accept)
    requires !ClearsUnseen(s, accept) || UnseenIsClean(s)
    ensures Inv(Next(s, accept))
  {
    AcceptedUnseenFile(s, accept);
    assert Next(s, accept).logs == s.logs && Next(s, accept).accepted == Some(s.running.value.logs);
  }

  lemma UnseenCursor(s: State, db: Database, readable: bool)
    requires !s.file.Saved? && Sound(LogOf(s.logs, db.containerID))
    ensures var o := Observing(s, db, readable);
            && o.file.latch.version > 0 && o.file.latch.containerID == db.containerID
            && CursorOk(o.file.latch, LogOf(s.logs, db.containerID), o.seen)
            && (readable ==> o.seen == |LogOf(s.logs, db.containerID).written|)
  {
    ObservationOnlyLatches(s.file, db, ReadLog(s, db.containerID, readable));
    if readable {
      ObservationReachesTheEnd(s.file, db, LogOf(s.logs, db.containerID));
    }
  }

  lemma AcceptedUnseenFile(s: State, accept: Step)
    requires LostUnderWay(s) && accept.FullIsAccepted? && Allowed(s, accept)
    requires !ClearsUnseen(s, accept) || UnseenIsClean(s)
    ensures FileOk(Next(s, accept))
  {
    var db := s.running.value.db;
    var o := Observing(s, db, accept.readable);
    var next := Next(s, accept);
    AcceptanceLeaves(s, accept);
    UnseenCursor(s, db, accept.readable);
    ClearedExactlyWhen(s, accept);
    if next.file.Saved? {
      assert next.seen == o.seen && next.logs == s.logs;
      assert next.file.latch == o.file.latch.(latched := next.file.latch.latched);
    }
  }

  lemma WrongAfterClearing(s: State, accept: Step)
    requires LostUnderWay(s) && accept.FullIsAccepted? && Allowed(s, accept)
    requires ClearsUnseen(s, accept) && !UnseenIsClean(s)
    ensures !SafeFrom(Next(s, accept))
  {
    var db := s.running.value.db;
    var next := Next(s, accept);
    var sets := [BackupSet("F", Full, 0, db.timeline)];
    var run := StartRun(db, true, Durable, sets, 0);
    ClearedExactlyWhen(s, accept);
    NothingNewIsKnown(next, db);
    assert NewestFull(sets) == Some(0);
    assert AllAllowed(next, []) && IsWrong(After(next, []), run);
  }

  /** A Check that finds the log as it was left reports what the latch said. */
  lemma NothingNewIsKnown(s: State, db: Database)
    requires s.file.Saved? && !s.file.latch.latched && BoundTo(s.file.latch, db) && Sound(LogOf(s.logs, db.containerID))
    requires var lines := Visible(LogOf(s.logs, db.containerID));
             s.file.latch.lines == |lines| && (lines != [] ==> s.file.latch.lastHash == HashOf(lines[|lines| - 1]))
    ensures var c := CheckSpec(s.file, db, ReadLog(s, db.containerID, true), Durable); c.known && !c.failed
  {
  }

  /** What is lost is what cannot be seen: a full that clears at version 1 is wrong
      exactly if a line lost since its Check was a warning. One that clears at
      version 2 has a warning in view, and is wrong if that is new. */
  lemma OnlyLostLinesMatterAtVersionOne(s: State, accept: Step)
    requires LostUnderWay(s) && accept.FullIsAccepted? && Allowed(s, accept) && ClearsUnseen(s, accept)
    ensures var c := s.running.value.db.containerID;
            var log, mark := LogOf(s.logs, c), |LogOf(s.running.value.logs, c).written|;
            && (s.running.value.version == 1 ==> (UnseenIsClean(s) <==> NoGapIn(log.written, mark, log.head)))
            && (s.running.value.version == 2 ==>
                  (UnseenIsClean(s) <==>
                   NoGapIn(log.written, mark, log.head) && NoGapIn(log.written, if mark > log.head then mark else log.head, |log.written|)))
  {
    var log := LogOf(s.logs, s.running.value.db.containerID);
    if s.running.value.version == 1 {
      forall i | log.head <= i < |log.written| ensures !ReportsGap(log.written[i]) {
        assert log.written[i] == Visible(log)[i - log.head];
      }
    }
  }

  /** The example while a full is under way: a dropped-WAL line has been logged
      since its Check and rotated away. */
  const EXAMPLE_DURING := State(
    Path("u", "v"), Saved(EXAMPLE_LATCH.(latched := true, lines := 1, lastHash := HashOf("ready"))),
    map["c" := Log(["ready", DROPPED_WAL], 2)], 1,
    Some(FullRun(EXAMPLE_DB, 1, map["c" := Log(["ready"], 0)])), None)

  lemma ExampleStarts(s: State)
    requires s == State(Path("u", "v"), Absent, map["c" := Log(["ready"], 0)], 0, None, None)
    ensures var start := StartRun(EXAMPLE_DB, true, Durable, [], 0);
            && Initial(s) && Allowed(s, start)
            && var started := Next(s, start);
               && started == EXAMPLE_DURING.(logs := s.logs)
               && Losing(started.(logs := map["c" := Log(["ready", DROPPED_WAL], 0)]), "c", 2) == EXAMPLE_DURING
  {
    TheWarningIsAGap();
    assert Visible(LogOf(s.logs, "c")) == ["ready"];
  }

  lemma ExampleStaysLatched(during: State)
    requires during == EXAMPLE_DURING
    ensures var accept := FullIsAccepted(true, Durable, Durable);
            Allowed(during, accept) && Next(during, accept).file.latch.latched
  {
    assert Visible(LogOf(during.logs, "c")) == [];
  }

  lemma ExampleForgets(lost: State)
    requires lost == EXAMPLE_DURING.(file := Absent)
    ensures var accept := FullIsAccepted(true, Durable, Durable);
            && Allowed(lost, accept)
            && var after := Next(lost, accept);
               && after.file == Saved(EXAMPLE_LATCH)
               && IsWrong(after, StartRun(EXAMPLE_DB, true, Durable, EXAMPLE_SETS, 0))
  {
    assert Visible(LogOf(lost.logs, "c")) == [];
    var after := Next(lost, FullIsAccepted(true, Durable, Durable));
    assert after.file == Saved(EXAMPLE_LATCH);
    NothingNewIsKnown(after, EXAMPLE_DB);
    assert LogOf(after.logs, "c").written[1] == DROPPED_WAL;
    TheWarningIsAGap();
    assert NewestFull(EXAMPLE_SETS) == Some(0);
  }

  /** Losing the latch file restarts the version, so a full that started before the
      loss can match the version of the latch that replaces it. Here a dropped-WAL
      line is logged during the full and then rotated away: with the file the full
      does not clear the latch; without it, it does, and the run after it chooses
      the differential. */
  lemma LosingTheFileCanMissAGap(s: State)
    requires s == State(Path("u", "v"), Absent, map["c" := Log(["ready"], 0)], 0, None, None)
    ensures var started := Next(s, StartRun(EXAMPLE_DB, true, Durable, [], 0));
            var accept := FullIsAccepted(true, Durable, Durable);
            && Initial(s) && started.running.Some?
            && var during := Losing(started.(logs := map["c" := Log(["ready", DROPPED_WAL], 0)]), "c", 2);
            && Allowed(during, accept)
            && Next(during, accept).file.latch.latched
            && var after := Next(during.(file := Absent), accept);
            && after.file.Saved? && !after.file.latch.latched
            && IsWrong(after, StartRun(EXAMPLE_DB, true, Durable, EXAMPLE_SETS, 0))
  {
    ExampleStarts(s);
    ExampleStaysLatched(EXAMPLE_DURING);
    ExampleForgets(EXAMPLE_DURING.(file := Absent));
  }

  /** An observation of a log that only grew, without a dropped-WAL line, moves
      the cursor and nothing else. */
  lemma GrowingWithoutAGap(l: Latch, db: Database, seen: seq<string>, lines: seq<string>)
    requires BoundTo(l, db) && l.lines == |seen| && (seen != [] ==> l.lastHash == HashOf(seen[|seen| - 1]))
    requires seen <= lines && !AnyGap(lines[|seen|..])
    ensures Observed(Saved(l), db, Lines(lines)) == Advanced(l, lines)
  {
  }

  lemma ObservedCursor(stored: Stored, db: Database, lines: seq<string>)
    ensures var l := Observed(stored, db, Lines(lines));
            BoundTo(l, db) && l.lines == |lines| && (lines != [] ==> l.lastHash == HashOf(lines[|lines| - 1]))
  {
  }

  /** The latch does clear: a full whose Check and acceptance read the same log,
      grown without a dropped-WAL line, makes continuity known again. */
  lemma {:induction false} AnAcceptedFullRestoresContinuity(stored: Stored, db: Database,
                                         atCheck: seq<string>, atAccept: seq<string>, later: seq<string>)
    requires atCheck <= atAccept <= later
    requires !AnyGap(atAccept[|atCheck|..]) && !AnyGap(later[|atAccept|..])
    ensures var c := CheckSpec(stored, db, Lines(atCheck), Durable);
            var a := FullAcceptedSpec(c.stored, db, c.version, Lines(atAccept), Durable, Durable);
            var next := CheckSpec(a.stored, db, Lines(later), Durable);
            !a.failed && !next.failed && next.known && next.version == c.version
  {
    var l := Observed(stored, db, Lines(atCheck));
    ObservedCursor(stored, db, atCheck);
    GrowingWithoutAGap(l, db, atCheck, atAccept);
    var cleared := Advanced(l, atAccept).(latched := false);
    GrowingWithoutAGap(cleared, db, atAccept, later);
  }
}
