/** The object store of offline backups, and every run over it: what may be put,
    committed and deleted, one effect at a time. A crash of the agent is a run
    that stops anywhere and goes on with another backup. */
module BackupStore {

  const MANIFEST := "manifest.json"

  datatype Option<T> = None | Some(value: T)

  /** A key under the Project's snapshots: `id/rest`, cut at the first slash. A
      key without a slash belongs to no generation. */
  datatype Key = Loose(name: string) | In(id: string, rest: string)

  datatype Entry = Entry(volume: string, key: Key, size: int)

  datatype Manifest = Manifest(uid: string, entries: seq<Entry>)

  /** An object's size, and the manifest its body parses as, if it does. */
  datatype Object = Object(size: int, manifest: Option<Manifest>)

  type Objects = map<Key, Object>

  function DropTrailingSlashes(s: string): string {
    if s != "" && s[|s| - 1] == '/' then DropTrailingSlashes(s[..|s| - 1]) else s
  }

  function AfterLastSlash(s: string): string {
    if s == "" || s[|s| - 1] == '/' then "" else AfterLastSlash(s[..|s| - 1]) + [s[|s| - 1]]
  }

  /** `path.Base`. */
  function Base(s: string): string {
    var t := DropTrailingSlashes(s);
    if s == "" then "." else if t == "" then "/" else AfterLastSlash(t)
  }

  predicate IsManifestKey(k: Key) {
    k.In? && Base(k.rest) == MANIFEST
  }

  lemma TheManifestKeyIsOne(id: string)
    ensures IsManifestKey(In(id, MANIFEST))
  {
    var s := MANIFEST;
    assert DropTrailingSlashes(s) == s;
    NoSlashIsItsBase(s);
  }

  lemma {:induction false} NoSlashIsItsBase(s: string)
    requires '/' !in s
    ensures AfterLastSlash(s) == s
  {
    if s != "" {
      NoSlashIsItsBase(s[..|s| - 1]);
      assert s == s[..|s| - 1] + [s[|s| - 1]];
    }
  }

  /** A generation can be restored once its manifest is there and reads. */
  predicate HasManifest(objects: Objects, id: string) {
    In(id, MANIFEST) in objects && objects[In(id, MANIFEST)].manifest.Some?
  }

  /** Every archive the manifest names is in the generation, at its size. */
  predicate Complete(objects: Objects, id: string, m: Manifest) {
    forall i :: 0 <= i < |m.entries| ==>
      && m.entries[i].key.In? && m.entries[i].key.id == id && !IsManifestKey(m.entries[i].key)
      && m.entries[i].key in objects && objects[m.entries[i].key].size == m.entries[i].size
  }

  /** `committed` is the generation the server restores from, "" for none. */
  datatype World = World(objects: Objects, committed: string)

  datatype Effect =
    | PutArchive(id: string, rest: string, size: int)
    | PutManifest(id: string, size: int, manifest: Manifest)
    | Commit(id: string)
    | Delete(key: Key)

  /** When each effect may happen. */
  predicate May(w: World, e: Effect) {
    match e
    case PutArchive(id, rest, _) => !IsManifestKey(In(id, rest)) && !HasManifest(w.objects, id)
    case PutManifest(id, _, m) => In(id, MANIFEST) !in w.objects && Complete(w.objects, id, m)
    case Commit(id) => HasManifest(w.objects, id)
    case Delete(k) => k.In? && (if IsManifestKey(k) then k.id != w.committed else !HasManifest(w.objects, k.id))
  }

  function Next(w: World, e: Effect): World {
    match e
    case PutArchive(id, rest, size) => w.(objects := w.objects[In(id, rest) := Object(size, None)])
    case PutManifest(id, size, m) => w.(objects := w.objects[In(id, MANIFEST) := Object(size, Some(m))])
    case Commit(id) => w.(committed := id)
    case Delete(k) => w.(objects := w.objects - {k})
  }

  predicate IsRun(trace: seq<World>, effects: seq<Effect>) {
    && |trace| == |effects| + 1
    && forall i :: 0 <= i < |effects| ==> May(trace[i], effects[i]) && trace[i + 1] == Next(trace[i], effects[i])
  }

  /** What a restore relies on. */
  ghost predicate Restorable(w: World) {
    && (forall id :: HasManifest(w.objects, id) ==> Complete(w.objects, id, w.objects[In(id, MANIFEST)].manifest.value))
    && (w.committed != "" ==> HasManifest(w.objects, w.committed))
  }

  lemma EffectKeepsRestorable(w: World, e: Effect)
    requires Restorable(w) && May(w, e)
    ensures Restorable(Next(w, e))
  {
  }

  /** Over every run of backups, prunings, failures and crashes: a generation
      with a manifest has every archive it names at the recorded size, and the
      committed backup is such a generation. */
  lemma {:induction false} EveryManifestIsComplete(trace: seq<World>, effects: seq<Effect>, i: nat)
    requires IsRun(trace, effects) && i < |trace| && Restorable(trace[0])
    ensures Restorable(trace[i])
  {
    if i > 0 {
      EveryManifestIsComplete(trace, effects, i - 1);
      EffectKeepsRestorable(trace[i - 1], effects[i - 1]);
    }
  }
}
