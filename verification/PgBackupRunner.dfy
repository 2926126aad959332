/** One run over a Project's databases: every database is checked and backed up
    before anything is reported, and only a report the server accepted lets a
    full backup clear its latch. */
module PgBackupRunner {
  import opened Continuity
  import opened BackupChoice

  /** What the outside does during one database's backup: the answers of psql,
      pgbackrest and the container's log. */
  datatype Attempt = Attempt(
    identity: Option<(string, string)>, before: Option<seq<BackupSet>>,
    log: LogRead, save: SaveOutcome, now: int,
    backupRan: bool, after: Option<seq<BackupSet>>)

  /** What the outside does when one accepted full is marked. */
  datatype Marking = Marking(log: LogRead, observeSave: SaveOutcome, clearSave: SaveOutcome)

  datatype Item = Item(volume: string, set_: BackupSet)

  datatype Outcome = Recorded(items: seq<Item>) | NotRecorded

  /** A latch that has only been observed: it may have been set, it has not been
      cleared, and its version has not gone back. */
  predicate OnlyLatched(a: Stored, b: Stored) {
    a.Saved? && a.latch.version > 0 ==>
      b.Saved? && b.latch.version >= a.latch.version && (a.latch.latched ==> b.latch.latched)
  }

  /** Versions in use are positive. */
  predicate Versioned(s: Stored) {
    s.Saved? ==> s.latch.version > 0
  }

  lemma CheckOnlyLatches(stored: Stored, db: Database, log: LogRead, save: SaveOutcome)
    requires Versioned(stored)
    ensures Versioned(CheckSpec(stored, db, log, save).stored)
    ensures OnlyObserved(stored, CheckSpec(stored, db, log, save).stored)
  {
  }

  lemma AcceptingKeepsVersions(stored: Stored, db: Database, version: nat, m: Marking)
    requires Versioned(stored)
    ensures Versioned(FullAcceptedSpec(stored, db, version, m.log, m.observeSave, m.clearSave).stored)
  {
  }

  /** The database as psql identifies it. */
  function Filled(db: Database, identity: (string, string)): Database {
    db.(systemID := identity.0, timeline := identity.1)
  }

  /** The attempt comes as far as the Check of its database. */
  predicate Reached(a: Attempt) {
    a.identity.Some? && a.before.Some?
  }

  function OwnCheck(stored: Stored, db: Database, a: Attempt): CheckResult
    requires Reached(a)
  {
    CheckSpec(stored, Filled(db, a.identity.value), a.log, a.save)
  }

  /** The type of backup the own Check of the database allows. */
  function OwnType(stored: Stored, db: Database, a: Attempt): BackupType
    requires Reached(a)
  {
    var c := OwnCheck(stored, db, a);
    ChooseType(a.before.value, a.identity.value.1, c.known && !c.failed, a.now, FULL_INTERVAL)
  }

  /** What a whole run that was accepted makes of a latch. */
  function Accepted(stored: Stored, db: Database, a: Attempt, m: Marking): Stored
    requires Reached(a)
  {
    var c := OwnCheck(stored, db, a);
    if OwnType(stored, db, a).Full?
    then FullAcceptedSpec(c.stored, Filled(db, a.identity.value), c.version, m.log, m.observeSave, m.clearSave).stored
    else c.stored
  }

  /** A latch found clear was clear before, at the same version. */
  predicate StaysClear(a: Stored, b: Stored) {
    b.Saved? && !b.latch.latched ==> a.Saved? && !a.latch.latched && b.latch.version == a.latch.version
  }

  predicate OnlyObserved(a: Stored, b: Stored) {
    OnlyLatched(a, b) && StaysClear(a, b)
  }

  /** A latch found clear was so before, or was cleared at `version`. */
  predicate ClearedOnlyAt(a: Stored, b: Stored, version: nat) {
    StaysClear(a, b) || (b.Saved? && b.latch.version == version)
  }

  lemma AcceptingClearsOnlyAt(stored: Stored, db: Database, version: nat, m: Marking)
    requires Versioned(stored)
    ensures ClearedOnlyAt(stored, FullAcceptedSpec(stored, db, version, m.log, m.observeSave, m.clearSave).stored, version)
  {
  }

  /** The type and the version are those of the database's own Check. */
  predicate ChosenByOwnCheck(stored: Stored, db: Database, a: Attempt, item: Item, version: nat) {
    Reached(a) && item.set_.kind == OwnType(stored, db, a) && version == OwnCheck(stored, db, a).version
  }

  predicate BackedUp(stored: Stored, after: Stored, db: Database, a: Attempt, item: Item, filled: Database, version: nat) {
    && ChosenByOwnCheck(stored, db, a, item, version)
    && filled == Filled(db, a.identity.value) && after == OwnCheck(stored, db, a).stored
  }

  /** The databases before `|items|` are backed up, and nothing else has changed. */
  ghost predicate Progress(was: Disk, now: Disk, dbs: seq<Database>, attempts: seq<Attempt>,
                           items: seq<Item>, filled: seq<Database>, versions: seq<nat>)
    requires |items| == |filled| == |versions| <= |dbs| == |attempts|
  {
    && (forall k :: 0 <= k < |items| ==> PathOf(filled[k]) == PathOf(dbs[k]))
    && SameElsewhere(was, now, dbs)
    && (DistinctPaths(dbs) ==>
          && (forall k :: 0 <= k < |items| ==>
                BackedUp(Find(was, PathOf(dbs[k])), Find(now, PathOf(dbs[k])), dbs[k], attempts[k], items[k], filled[k], versions[k]))
          && (forall k :: |items| <= k < |dbs| ==> Find(now, PathOf(dbs[k])) == Find(was, PathOf(dbs[k]))))
  }

  lemma OneMoreBackup(was: Disk, before: Disk, now: Disk, dbs: seq<Database>, attempts: seq<Attempt>,
                      items: seq<Item>, filled: seq<Database>, versions: seq<nat>, item: Item, db: Database, version: nat)
    requires |items| == |filled| == |versions| < |dbs| == |attempts|
    requires Progress(was, before, dbs, attempts, items, filled, versions)
    requires forall p :: p != PathOf(dbs[|items|]) ==> Find(now, p) == Find(before, p)
    requires var p := PathOf(dbs[|items|]);
             PathOf(db) == p && BackedUp(Find(before, p), Find(now, p), dbs[|items|], attempts[|items|], item, db, version)
    ensures Progress(was, now, dbs, attempts, items + [item], filled + [db], versions + [version])
  {
  }

  lemma StoppingKeeps(was: Disk, before: Disk, now: Disk, dbs: seq<Database>, attempts: seq<Attempt>,
                      items: seq<Item>, filled: seq<Database>, versions: seq<nat>)
    requires |items| == |filled| == |versions| < |dbs| == |attempts|
    requires Progress(was, before, dbs, attempts, items, filled, versions)
    requires forall p :: p != PathOf(dbs[|items|]) ==> Find(now, p) == Find(before, p)
    requires var p := PathOf(dbs[|items|]);
             CheckedOrNot(Find(before, p), Find(now, p), dbs[|items|], attempts[|items|])
    ensures SameElsewhere(was, now, dbs)
    ensures DistinctPaths(dbs) ==> forall k :: 0 <= k < |dbs| ==>
              CheckedOrNot(Find(was, PathOf(dbs[k])), Find(now, PathOf(dbs[k])), dbs[k], attempts[k])
  {
  }

  predicate IsLatchOf(dbs: seq<Database>, p: Path) {
    exists i :: 0 <= i < |dbs| && PathOf(dbs[i]) == p
  }

  /** All that a run which is not accepted does to a latch. */
  predicate CheckedOrNot(stored: Stored, after: Stored, db: Database, a: Attempt) {
    after == stored || (Reached(a) && after == OwnCheck(stored, db, a).stored)
  }

  /** What marking leaves of one latch. */
  predicate Marks(before: Stored, after: Stored, filled: Database, item: Item, version: nat, m: Marking) {
    after == if item.set_.kind.Full?
             then FullAcceptedSpec(before, filled, version, m.log, m.observeSave, m.clearSave).stored
             else before
  }

  /** Some full of this run is of the database behind `p`, and `p`'s latch, if it
      was cleared, was cleared at that full's version. */
  predicate ClearedByAFull(p: Path, before: Stored, after: Stored, dbs: seq<Database>, items: seq<Item>, versions: seq<nat>)
    requires |items| == |versions| <= |dbs|
  {
    exists i :: 0 <= i < |items| && PathOf(dbs[i]) == p && items[i].set_.kind.Full? && ClearedOnlyAt(before, after, versions[i])
  }

  /** Only the latches of `dbs` differ. */
  ghost predicate SameElsewhere(was: Disk, now: Disk, dbs: seq<Database>) {
    forall p :: !IsLatchOf(dbs, p) ==> Find(now, p) == Find(was, p)
  }

  /** A Project's volumes are distinct, and so are their latch files. */
  predicate DistinctPaths(dbs: seq<Database>) {
    forall i, j :: 0 <= i < j < |dbs| ==> PathOf(dbs[i]) != PathOf(dbs[j])
  }

  class Runner {
    const continuity: FileContinuity

    constructor (continuity: FileContinuity)
      ensures this.continuity == continuity
    {
      this.continuity := continuity;
    }

    ghost predicate Valid()
      reads this, continuity
    {
      forall p :: Versioned(Find(continuity.disk, p))
    }

    /** Chooses the type, takes the backup and confirms it is listed. The
        version returned is the one the choice was made at. */
    method BackupOne(db: Database, a: Attempt) returns (item: Option<Item>, filled: Database, version: nat)
      requires Valid()
      modifies continuity
      ensures Valid()
      ensures PathOf(filled) == PathOf(db)
      ensures OnlyObserved(Find(old(continuity.disk), PathOf(db)), Find(continuity.disk, PathOf(db)))
      ensures forall p :: p != PathOf(db) ==> Find(continuity.disk, p) == Find(old(continuity.disk), p)
      ensures Find(continuity.disk, PathOf(db))
           == if Reached(a) then OwnCheck(Find(old(continuity.disk), PathOf(db)), db, a).stored
              else Find(old(continuity.disk), PathOf(db))
      ensures item.Some? ==>
        && Reached(a) && a.backupRan && a.after.Some?
        && filled == Filled(db, a.identity.value)
        && version == OwnCheck(Find(old(continuity.disk), PathOf(db)), db, a).version
        && item.value.set_.kind == OwnType(Find(old(continuity.disk), PathOf(db)), db, a)
        && IsNew(a.before.value, item.value.set_, item.value.set_.kind)
        && item.value.set_ in a.after.value
    {
      filled := db;
      if a.identity.None? {
        return None, filled, 0;
      }
      filled := Filled(db, a.identity.value);
      if a.before.None? {
        return None, filled, 0;
      }
      CheckOnlyLatches(Find(continuity.disk, PathOf(db)), filled, a.log, a.save);
      var known, v, failed := continuity.Check(filled, a.log, a.save);
      var kind := ChooseType(a.before.value, filled.timeline, known && !failed, a.now, FULL_INTERVAL);
      if !a.backupRan || a.after.None? {
        return None, filled, 0;
      }
      var made := NewBackup(a.before.value, a.after.value, kind);
      if made.None? {
        return None, filled, 0;
      }
      return Some(Item(db.volume, made.value)), filled, v;
    }

    /** Nothing is cleared unless every database was backed up and the server
        accepted the whole run; and then only latches of databases this run took a
        full backup of, each at the version that full's own Check returned. */
    method Run(dbs: seq<Database>, attempts: seq<Attempt>, accepted: bool, markings: seq<Marking>)
      returns (r: Outcome, versions: seq<nat>)
      requires |attempts| == |markings| == |dbs|
      requires Valid()
      modifies continuity
      ensures Valid()
      ensures r.NotRecorded? ==> forall p :: OnlyObserved(Find(old(continuity.disk), p), Find(continuity.disk, p))
      ensures r.Recorded? ==> accepted && |r.items| == |versions| == |dbs|
      ensures r.Recorded? ==> forall p ::
                || OnlyObserved(Find(old(continuity.disk), p), Find(continuity.disk, p))
                || ClearedByAFull(p, Find(old(continuity.disk), p), Find(continuity.disk, p), dbs, r.items, versions)
      ensures SameElsewhere(old(continuity.disk), continuity.disk, dbs)
      ensures r.Recorded? && DistinctPaths(dbs) ==> forall i :: 0 <= i < |dbs| ==>
                && ChosenByOwnCheck(Find(old(continuity.disk), PathOf(dbs[i])), dbs[i], attempts[i], r.items[i], versions[i])
                && Find(continuity.disk, PathOf(dbs[i]))
                   == Accepted(Find(old(continuity.disk), PathOf(dbs[i])), dbs[i], attempts[i], markings[i])
      ensures r.NotRecorded? && DistinctPaths(dbs) ==> forall i :: 0 <= i < |dbs| ==>
                CheckedOrNot(Find(old(continuity.disk), PathOf(dbs[i])), Find(continuity.disk, PathOf(dbs[i])), dbs[i], attempts[i])
    {
      var items: seq<Item>;
      var filled;
      var ok;
      ok, items, filled, versions := BackupEach(dbs, attempts);
      if !ok || !accepted {
        return NotRecorded, versions;
      }
      MarkEach(dbs, filled, items, versions, markings);
      return Recorded(items), versions;
    }

    /** Marks every accepted full; an error is only logged. */
    method MarkEach(dbs: seq<Database>, filled: seq<Database>, items: seq<Item>, versions: seq<nat>, markings: seq<Marking>)
      requires |filled| == |items| == |versions| == |markings| == |dbs|
      requires forall k :: 0 <= k < |dbs| ==> PathOf(filled[k]) == PathOf(dbs[k])
      requires Valid()
      modifies continuity
      ensures Valid()
      ensures SameElsewhere(old(continuity.disk), continuity.disk, dbs)
      ensures forall p ::
                || Find(continuity.disk, p) == Find(old(continuity.disk), p)
                || ClearedByAFull(p, Find(old(continuity.disk), p), Find(continuity.disk, p), dbs, items, versions)
      ensures DistinctPaths(dbs) ==> forall i :: 0 <= i < |dbs| ==>
                Marks(Find(old(continuity.disk), PathOf(dbs[i])), Find(continuity.disk, PathOf(dbs[i])),
                      filled[i], items[i], versions[i], markings[i])
    {
      for i := 0 to |dbs|
        invariant Valid()
        invariant SameElsewhere(old(continuity.disk), continuity.disk, dbs)
        invariant forall p ::
          || Find(continuity.disk, p) == Find(old(continuity.disk), p)
          || ClearedByAFull(p, Find(old(continuity.disk), p), Find(continuity.disk, p), dbs, items, versions)
        invariant DistinctPaths(dbs) ==> forall k :: i <= k < |dbs| ==>
          Find(continuity.disk, PathOf(dbs[k])) == Find(old(continuity.disk), PathOf(dbs[k]))
        invariant DistinctPaths(dbs) ==> forall k :: 0 <= k < i ==>
          Marks(Find(old(continuity.disk), PathOf(dbs[k])), Find(continuity.disk, PathOf(dbs[k])),
                filled[k], items[k], versions[k], markings[k])
      {
        MarkOne(filled[i], items[i], versions[i], markings[i]);
      }
    }

    method MarkOne(filled: Database, item: Item, version: nat, m: Marking)
      requires Valid()
      modifies continuity
      ensures Valid()
      ensures forall p :: p != PathOf(filled) ==> Find(continuity.disk, p) == Find(old(continuity.disk), p)
      ensures Marks(Find(old(continuity.disk), PathOf(filled)), Find(continuity.disk, PathOf(filled)), filled, item, version, m)
      ensures || Find(continuity.disk, PathOf(filled)) == Find(old(continuity.disk), PathOf(filled))
              || (item.set_.kind.Full?
                  && ClearedOnlyAt(Find(old(continuity.disk), PathOf(filled)), Find(continuity.disk, PathOf(filled)), version))
    {
      if item.set_.kind.Full? {
        ghost var before := Find(continuity.disk, PathOf(filled));
        AcceptingKeepsVersions(before, filled, version, m);
        AcceptingClearsOnlyAt(before, filled, version, m);
        var _ := continuity.FullAccepted(filled, version, m.log, m.observeSave, m.clearSave);
      }
    }

    /** Every database, one after another, until one fails. */
    method BackupEach(dbs: seq<Database>, attempts: seq<Attempt>)
      returns (ok: bool, items: seq<Item>, filled: seq<Database>, versions: seq<nat>)
      requires |attempts| == |dbs| && Valid()
      modifies continuity
      ensures Valid() && forall p :: OnlyObserved(Find(old(continuity.disk), p), Find(continuity.disk, p))
      ensures ok ==> |items| == |filled| == |versions| == |dbs|
      ensures ok ==> forall k :: 0 <= k < |dbs| ==> PathOf(filled[k]) == PathOf(dbs[k])
      ensures SameElsewhere(old(continuity.disk), continuity.disk, dbs)
      ensures ok && DistinctPaths(dbs) ==> forall i :: 0 <= i < |dbs| ==>
                BackedUp(Find(old(continuity.disk), PathOf(dbs[i])), Find(continuity.disk, PathOf(dbs[i])), dbs[i], attempts[i],
                         items[i], filled[i], versions[i])
      ensures !ok && DistinctPaths(dbs) ==> forall i :: 0 <= i < |dbs| ==>
                CheckedOrNot(Find(old(continuity.disk), PathOf(dbs[i])), Find(continuity.disk, PathOf(dbs[i])), dbs[i], attempts[i])
    {
      items, filled, versions := [], [], [];
      ghost var was := continuity.disk;
      for i := 0 to |dbs|
        invariant Valid() && |items| == |filled| == |versions| == i
        invariant forall p :: OnlyObserved(Find(was, p), Find(continuity.disk, p))
        invariant Progress(was, continuity.disk, dbs, attempts, items, filled, versions)
      {
        ghost var before := continuity.disk;
        var item, db, version := BackupOne(dbs[i], attempts[i]);
        if item.None? {
          StoppingKeeps(was, before, continuity.disk, dbs, attempts, items, filled, versions);
          return false, items, filled, versions;
        }
        OneMoreBackup(was, before, continuity.disk, dbs, attempts, items, filled, versions, item.value, db, version);
        items, filled, versions := items + [item.value], filled + [db], versions + [version];
      }
      ok := true;
    }
  }
}
