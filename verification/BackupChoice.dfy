/** Choosing between a full and a differential pgBackRest backup, and finding
    the backup a run made. */
module BackupChoice {

  datatype BackupType = Full | Diff | Incr

  /** One backup of a stanza as `pgbackrest info` lists it; `start` is in Unix
      seconds and `walStart` names its first WAL segment. */
  datatype BackupSet = BackupSet(backupLabel: string, kind: BackupType, start: int, walStart: string)

  const NANOS: int := 1_000_000_000
  /** Seven days, in nanoseconds. */
  const FULL_INTERVAL: int := 7 * 24 * 3600 * NANOS

  function Started(b: BackupSet): int {
    b.start * NANOS
  }

  function TimelineOf(b: BackupSet): string {
    if |b.walStart| < 8 then "" else b.walStart[..8]
  }

  datatype Option<T> = None | Some(value: T)

  /** The index of the last full backup listed. */
  function NewestFull(sets: seq<BackupSet>): (r: Option<nat>)
    ensures r.Some? ==> r.value < |sets| && sets[r.value].kind.Full?
                        && forall i :: r.value < i < |sets| ==> !sets[i].kind.Full?
    ensures r.None? ==> forall i :: 0 <= i < |sets| ==> !sets[i].kind.Full?
  {
    if sets == [] then None
    else if sets[|sets| - 1].kind.Full? then Some(|sets| - 1)
    else NewestFull(sets[..|sets| - 1])
  }

  method FindNewestFull(sets: seq<BackupSet>) returns (r: Option<nat>)
    ensures r == NewestFull(sets)
  {
    var i := |sets|;
    while i > 0
      invariant 0 <= i <= |sets|
      invariant NewestFull(sets) == NewestFull(sets[..i])
    {
      if sets[i - 1].kind.Full? {
        return Some(i - 1);
      }
      assert sets[..i][..i - 1] == sets[..i - 1];
      i := i - 1;
    }
    return None;
  }

  /** The rules in the order they are applied: every rule that asks for a full
      comes before the differential is allowed. */
  function ChooseType(sets: seq<BackupSet>, timeline: string, continuityKnown: bool, now: int, interval: int): BackupType {
    var full := NewestFull(sets);
    if full.None? then Full
    else if now - Started(sets[full.value]) >= interval then Full
    else if TimelineOf(sets[full.value]) != timeline then Full
    else if !continuityKnown then Full
    else Diff
  }

  /** The differential is chosen exactly when some full is young enough, on the
      current timeline, followed by no other full, and continuity is known. */
  lemma DifferentialExactlyWhen(sets: seq<BackupSet>, timeline: string, known: bool, now: int, interval: int)
    ensures ChooseType(sets, timeline, known, now, interval).Diff? <==>
            known && exists i :: 0 <= i < |sets| && sets[i].kind.Full?
                                 && (forall j :: i < j < |sets| ==> !sets[j].kind.Full?)
                                 && now - Started(sets[i]) < interval && TimelineOf(sets[i]) == timeline
  {
  }

  predicate Listed(sets: seq<BackupSet>, name: string) {
    exists i :: 0 <= i < |sets| && sets[i].backupLabel == name
  }

  predicate IsNew(before: seq<BackupSet>, b: BackupSet, kind: BackupType) {
    !Listed(before, b.backupLabel) && b.kind == kind
  }

  /** The last backup of `kind` that `after` lists and `before` did not: a run
      whose backup is not listed is not a success. */
  method NewBackup(before: seq<BackupSet>, after: seq<BackupSet>, kind: BackupType) returns (r: Option<BackupSet>)
    ensures r.None? <==> forall i :: 0 <= i < |after| ==> !IsNew(before, after[i], kind)
    ensures r.Some? ==> exists i :: 0 <= i < |after| && after[i] == r.value && IsNew(before, after[i], kind)
                                    && forall j :: i < j < |after| ==> !IsNew(before, after[j], kind)
  {
    var seen := {};
    for k := 0 to |before|
      invariant forall l :: l in seen <==> Listed(before[..k], l)
    {
      assert before[..k + 1] == before[..k] + [before[k]];
      forall l ensures Listed(before[..k + 1], l) <==> Listed(before[..k], l) || l == before[k].backupLabel {
        if l == before[k].backupLabel {
          assert before[..k + 1][k].backupLabel == l;
        }
      }
      seen := seen + {before[k].backupLabel};
    }
    assert before[..|before|] == before;
    var i := |after|;
    while i > 0
      invariant 0 <= i <= |after|
      invariant forall j :: i <= j < |after| ==> !IsNew(before, after[j], kind)
    {
      i := i - 1;
      if after[i].backupLabel !in seen && after[i].kind == kind {
        return Some(after[i]);
      }
    }
    return None;
  }
}
