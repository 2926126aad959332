/** The WAL-continuity latch of one PostgresDifferential database: a small file
    that says whether archiving has provably been continuous since the last
    accepted full backup. */
module Continuity {
  import opened Text

  /** The start of the warning pgBackRest logs when it drops WAL unarchived. */
  const DROPPED_WAL := "dropped WAL file"

  predicate ReportsGap(line: string) {
    Contains(line, DROPPED_WAL)
  }

  predicate AnyGap(lines: seq<string>) {
    exists i :: 0 <= i < |lines| && ReportsGap(lines[i])
  }

  /** SHA-256 of a log line, taken to be injective. */
  datatype Hash = NoHash | HashOf(line: string)

  datatype Database = Database(uid: string, volume: string, systemID: string, timeline: string, containerID: string)

  /** Where a database's latch file lives: one file per lifetime and volume. */
  datatype Path = Path(uid: string, volume: string)

  function PathOf(db: Database): Path {
    Path(db.uid, db.volume)
  }

  datatype Latch = Latch(
    uid: string, volume: string, systemID: string, timeline: string, containerID: string,
    version: nat, latched: bool,
    lines: nat, lastHash: Hash)

  /** What loading a latch file finds; both failures are `loadErr != nil`. */
  datatype Stored = Absent | Unreadable | Saved(latch: Latch)

  /** One reading of a container's log. */
  datatype LogRead = LogError | Lines(lines: seq<string>)

  /** How writing the latch file ended. The rename may have taken effect even
      though syncing the directory then failed. */
  datatype SaveOutcome = Durable | NotWritten | WrittenUnsynced

  function AfterSave(stored: Stored, l: Latch, o: SaveOutcome): Stored {
    if o.NotWritten? then stored else Saved(l)
  }

  predicate BoundTo(l: Latch, db: Database) {
    l.uid == db.uid && l.volume == db.volume && l.systemID == db.systemID
    && l.timeline == db.timeline && l.containerID == db.containerID
  }

  /** Where `l` stopped reading, `lines` has the line `l` stopped at. */
  predicate Continues(l: Latch, lines: seq<string>) {
    l.lines == 0 || (|lines| >= l.lines && HashOf(lines[l.lines - 1]) == l.lastHash)
  }

  /** A latch for `db` that has observed nothing and keeps only the version. */
  function Rebind(stored: Stored, db: Database): Latch {
    Latch(db.uid, db.volume, db.systemID, db.timeline, db.containerID,
          if stored.Saved? then stored.latch.version else 0, false, 0, NoHash)
  }

  /** An event that makes continuity unknown. */
  function Event(l: Latch): Latch {
    l.(version := l.version + 1, latched := true)
  }

  /** The latch one observation starts from, before new lines are scanned. */
  function Resumed(stored: Stored, db: Database, lines: seq<string>): Latch {
    if stored.Saved? && BoundTo(stored.latch, db) && Continues(stored.latch, lines)
    then stored.latch
    else Event(Rebind(stored, db))
  }

  function Min(a: nat, b: nat): nat {
    if a <= b then a else b
  }

  /** The lines an observation has not seen before. */
  function Unseen(l: Latch, lines: seq<string>): seq<string> {
    lines[Min(l.lines, |lines|)..]
  }

  function Advanced(l: Latch, lines: seq<string>): Latch {
    if lines == [] then l else l.(lines := |lines|, lastHash := HashOf(lines[|lines| - 1]))
  }

  /** The latch an observation arrives at and saves. */
  function Observed(stored: Stored, db: Database, log: LogRead): Latch {
    match log
    case LogError => Event(Rebind(stored, db))
    case Lines(lines) =>
      var l := Resumed(stored, db, lines);
      Advanced(if AnyGap(Unseen(l, lines)) then Event(l) else l, lines)
  }

  datatype CheckResult = CheckResult(stored: Stored, known: bool, version: nat, failed: bool)

  function CheckSpec(stored: Stored, db: Database, log: LogRead, save: SaveOutcome): CheckResult {
    var l := Observed(stored, db, log);
    if save.Durable?
    then CheckResult(Saved(l), !l.latched, l.version, log.LogError?)
    else CheckResult(AfterSave(stored, l, save), false, 0, true)
  }

  datatype AcceptResult = AcceptResult(stored: Stored, failed: bool)

  function FullAcceptedSpec(stored: Stored, db: Database, version: nat, log: LogRead,
                            observeSave: SaveOutcome, clearSave: SaveOutcome): AcceptResult
  {
    var l := Observed(stored, db, log);
    var observed := AfterSave(stored, l, observeSave);
    if !observeSave.Durable? || log.LogError? then AcceptResult(observed, true)
    else if !l.latched || l.version != version then AcceptResult(observed, false)
    else AcceptResult(AfterSave(observed, l.(latched := false), clearSave), !clearSave.Durable?)
  }

  /** An observation never clears a latch and never lowers the version, and
      nothing it saves is at version zero: zero is what a failed Check hands
      out, so a full that started then can never clear anything. */
  lemma ObservationOnlyLatches(stored: Stored, db: Database, log: LogRead)
    requires stored.Saved? ==> stored.latch.version > 0
    ensures var l := Observed(stored, db, log);
            && l.version > 0
            && BoundTo(l, db)
            && (stored.Saved? ==> l.version >= stored.latch.version)
            && (!l.latched ==> stored.Saved? && !stored.latch.latched && l.version == stored.latch.version)
            && (stored.Saved? && l.version == stored.latch.version ==> l.latched == stored.latch.latched)
  {
  }

  /** A full that started at a version the latch already had clears it exactly
      when nothing made continuity unknown since: same database and container,
      the same log, no dropped-WAL line in what is new, and both writes made. */
  lemma OnlyTheMatchingFullClears(l: Latch, db: Database, version: nat, log: LogRead,
                                  s1: SaveOutcome, s2: SaveOutcome)
    requires l.latched && version <= l.version
    ensures var after := FullAcceptedSpec(Saved(l), db, version, log, s1, s2).stored;
            !after.latch.latched <==>
              && version == l.version && BoundTo(l, db)
              && log.Lines? && Continues(l, log.lines) && !AnyGap(Unseen(l, log.lines))
              && s1.Durable? && !s2.NotWritten?
  {
  }

  type Disk = map<Path, Stored>

  function Find(disk: Disk, p: Path): Stored {
    if p in disk then disk[p] else Absent
  }

  /** The latch files of one Node, as the agent reads and rewrites them. The
      container's log and the outcome of each write come from outside. */
  class FileContinuity {
    var disk: Disk

    constructor ()
      ensures disk == map[]
    {
      disk := map[];
    }

    method Load(db: Database) returns (s: Stored)
      ensures s == Find(disk, PathOf(db))
    {
      s := if PathOf(db) in disk then disk[PathOf(db)] else Absent;
    }

    method Save(db: Database, l: Latch, outcome: SaveOutcome)
      modifies this
      ensures Find(disk, PathOf(db)) == AfterSave(Find(old(disk), PathOf(db)), l, outcome)
      ensures forall p :: p != PathOf(db) ==> Find(disk, p) == Find(old(disk), p)
    {
      if !outcome.NotWritten? {
        disk := disk[PathOf(db) := Saved(l)];
      }
    }

    /** Whether a dropped-WAL warning is among `lines`; stops at the first. */
    static method FindGap(lines: seq<string>) returns (found: bool)
      ensures found <==> AnyGap(lines)
    {
      found := false;
      for i := 0 to |lines|
        invariant !found && !AnyGap(lines[..i])
      {
        if ReportsGap(lines[i]) {
          return true;
        }
        assert lines[..i + 1] == lines[..i] + [lines[i]];
      }
      assert lines[..|lines|] == lines;
    }

    /** Brings the latch up to date with the log and saves it. */
    method Observe(db: Database, log: LogRead, save: SaveOutcome) returns (l: Latch)
      modifies this
      ensures l == Observed(Find(old(disk), PathOf(db)), db, log)
      ensures Find(disk, PathOf(db)) == AfterSave(Find(old(disk), PathOf(db)), l, save)
      ensures forall p :: p != PathOf(db) ==> Find(disk, p) == Find(old(disk), p)
    {
      var prev := Load(db);
      if log.LogError? {
        l := Event(Rebind(prev, db));
        Save(db, l, save);
        return;
      }
      var lines := log.lines;
      if !prev.Saved? || !BoundTo(prev.latch, db) || !Continues(prev.latch, lines) {
        l := Event(Rebind(prev, db));
      } else {
        l := prev.latch;
      }
      var gap := FindGap(Unseen(l, lines));
      if gap {
        l := Event(l);
      }
      if |lines| > 0 {
        l := l.(lines := |lines|, lastHash := HashOf(lines[|lines| - 1]));
      }
      Save(db, l, save);
    }

    method Check(db: Database, log: LogRead, save: SaveOutcome) returns (known: bool, version: nat, failed: bool)
      modifies this
      ensures CheckSpec(Find(old(disk), PathOf(db)), db, log, save) == CheckResult(Find(disk, PathOf(db)), known, version, failed)
      ensures forall p :: p != PathOf(db) ==> Find(disk, p) == Find(old(disk), p)
    {
      var l := Observe(db, log, save);
      if !save.Durable? {
        return false, 0, true;
      }
      return !l.latched, l.version, log.LogError?;
    }

    method FullAccepted(db: Database, version: nat, log: LogRead, observeSave: SaveOutcome, clearSave: SaveOutcome)
      returns (failed: bool)
      modifies this
      ensures FullAcceptedSpec(Find(old(disk), PathOf(db)), db, version, log, observeSave, clearSave)
           == AcceptResult(Find(disk, PathOf(db)), failed)
      ensures forall p :: p != PathOf(db) ==> Find(disk, p) == Find(old(disk), p)
    {
      var l := Observe(db, log, observeSave);
      if !observeSave.Durable? || log.LogError? {
        return true;
      }
      if !l.latched || l.version != version {
        return false;
      }
      Save(db, l.(latched := false), clearSave);
      return !clearSave.Durable?;
    }
  }
}
