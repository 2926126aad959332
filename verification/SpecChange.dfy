/** What an update of an assigned Project's spec may not change. */
module SpecChange {

  datatype Option<T> = None | Some(value: T)

  datatype Volume = Volume(name: string, kind: string)

  datatype BackupItem = BackupItem(volume: string, strategy: string, retainFull: Option<int>)

  /** `backup` is absent, or a list of items. */
  datatype Spec = Spec(size: string, volumes: seq<Volume>, backup: Option<seq<BackupItem>>)

  datatype Refusal = SizeChanged | VolumeRemoved(name: string) | TypeChanged(name: string) | BackupItemsChanged

  const DEFAULT_SIZE := "Medium"

  function EffectiveSize(s: Spec): string {
    if s.size == "" then DEFAULT_SIZE else s.size
  }

  /** A missing backup section and an empty list are the same. */
  function Items(s: Spec): seq<BackupItem> {
    if s.backup.Some? then s.backup.value else []
  }

  /** The type of the volume of this name; the last declaration wins. */
  function TypeOf(volumes: seq<Volume>, name: string): (r: Option<string>)
    ensures r.None? <==> forall v :: v in volumes ==> v.name != name
    ensures r.Some? ==> Volume(name, r.value) in volumes
  {
    if volumes == [] then None
    else
      var last := volumes[|volumes| - 1];
      if last.name == name then Some(last.kind) else TypeOf(volumes[..|volumes| - 1], name)
  }

  /** The first of `volumes` that `next` has not kept as it was. */
  function VolumeRefusal(volumes: seq<Volume>, next: seq<Volume>): (r: Option<Refusal>)
    ensures r.None? <==> forall v :: v in volumes ==> TypeOf(next, v.name) == Some(v.kind)
  {
    if volumes == [] then None
    else
      var v := volumes[0];
      var t := TypeOf(next, v.name);
      if t.None? then Some(VolumeRemoved(v.name))
      else if t.value != v.kind then Some(TypeChanged(v.name))
      else VolumeRefusal(volumes[1..], next)
  }

  function CheckAssignedSpecChange(before: Spec, next: Spec): Option<Refusal> {
    if EffectiveSize(before) != EffectiveSize(next) then Some(SizeChanged)
    else
      var refusal := VolumeRefusal(before.volumes, next.volumes);
      if refusal.Some? then refusal
      else if Items(before) != Items(next) then Some(BackupItemsChanged)
      else None
  }

  predicate Accepted(a: Spec, b: Spec) {
    CheckAssignedSpecChange(a, b).None?
  }

  /** Two updates that are each accepted make one that would be. */
  lemma AcceptanceIsTransitive(a: Spec, b: Spec, c: Spec)
    requires Accepted(a, b) && Accepted(b, c)
    ensures Accepted(a, c)
  {
  }

  predicate IsChain(specs: seq<Spec>) {
    forall i, j :: 0 <= i && j == i + 1 < |specs| ==> Accepted(specs[i], specs[j])
  }

  ghost predicate Transitive<T(!new)>(r: (T, T) -> bool) {
    forall a, b, c :: r(a, b) && r(b, c) ==> r(a, c)
  }

  /** What holds of any two in a row holds of any two, if it is transitive. */
  lemma {:induction false} ChainsCompose<T(!new)>(r: (T, T) -> bool, xs: seq<T>, i: nat, j: nat)
    requires Transitive(r) && i < j < |xs| && forall k, l :: 0 <= k && l == k + 1 < |xs| ==> r(xs[k], xs[l])
    ensures r(xs[i], xs[j])
    decreases j
  {
    assert r(xs[j - 1], xs[j]);
    if i < j - 1 {
      ChainsCompose(r, xs, i, j - 1);
    }
  }

  lemma ChainsAreAccepted(specs: seq<Spec>, i: nat, j: nat)
    requires IsChain(specs) && i < j < |specs|
    ensures Accepted(specs[i], specs[j])
  {
    forall a, b, c | Accepted(a, b) && Accepted(b, c) ensures Accepted(a, c) {
      AcceptanceIsTransitive(a, b, c);
    }
    assert Transitive(Accepted);
    ChainsCompose(Accepted, specs, i, j);
  }

  /** Over any chain of accepted updates, the booked size and the backup items are
      those of the first spec, and each of its volumes is there with its type. */
  lemma ChainsKeepWhatWasBooked(specs: seq<Spec>, i: nat, j: nat)
    requires IsChain(specs) && i < j < |specs|
    ensures EffectiveSize(specs[j]) == EffectiveSize(specs[i]) && Items(specs[j]) == Items(specs[i])
    ensures forall v :: v in specs[i].volumes ==> v in specs[j].volumes && TypeOf(specs[j].volumes, v.name) == Some(v.kind)
  {
    ChainsAreAccepted(specs, i, j);
    forall v | v in specs[i].volumes ensures v in specs[j].volumes {
      assert TypeOf(specs[j].volumes, v.name) == Some(v.kind);
    }
  }

  /** Writing out the default size is no change; a spec is an accepted update of
      itself exactly when it does not declare one volume with two types. */
  lemma UnchangedIsAcceptedExactlyWhen(s: Spec)
    ensures Accepted(s, s) <==> forall v, w :: v in s.volumes && w in s.volumes && v.name == w.name ==> v.kind == w.kind
    ensures Accepted(s, s) && s.size == "" ==> Accepted(s, s.(size := DEFAULT_SIZE))
  {
  }
}
