/** One offline backup: archive and verify every volume, write the manifest,
    commit, prune. The store and the server may fail any call, and a call that
    failed may have taken effect. Every effect is a step of BackupStore. */
module OfflineBackup {
  import opened Text
  import opened BackupStore
  import opened Retention

  function ArchiveRest(volume: string): string {
    volume + ".tar.gz"
  }

  lemma AnArchiveIsNoManifest(id: string, volume: string)
    ensures !IsManifestKey(In(id, ArchiveRest(volume)))
  {
    var s := ArchiveRest(volume);
    assert s[|s| - 1] == 'z';
    assert DropTrailingSlashes(s) == s;
    assert AfterLastSlash(s) == AfterLastSlash(s[..|s| - 1]) + ['z'];
    assert MANIFEST[|MANIFEST| - 1] == 'n';
  }

  /** No object of `id` is in the store, and the server never heard of it. */
  predicate Fresh(w: World, id: string) {
    id != "" && w.committed != id && forall k :: k in w.objects ==> !(k.In? && k.id == id)
  }

  /** Nothing but objects under `id` may differ. */
  ghost predicate OnlyUnder(a: World, b: World, id: string) {
    forall k: Key :: !(k.In? && k.id == id) ==>
      (k in a.objects <==> k in b.objects) && (k in a.objects ==> a.objects[k] == b.objects[k])
  }

  /** Only some of `keys` are gone, and nothing else changed. */
  ghost predicate OnlyDeleted(a: World, b: World, keys: seq<Key>) {
    && b.objects.Keys <= a.objects.Keys
    && (forall k :: k in a.objects && k !in keys ==> k in b.objects)
    && (forall k :: k in b.objects ==> b.objects[k] == a.objects[k])
  }

  /** No object of the generation is left. */
  ghost predicate Emptied(w: World, id: string) {
    forall k: Key :: k.In? && k.id == id ==> k !in w.objects
  }

  lemma DeletedMore(a: World, b: World, c: World, keys: seq<Key>, key: Key)
    requires OnlyDeleted(a, b, keys) && OnlyDeleted(b, c, [key]) && key in keys
    ensures OnlyDeleted(a, c, keys)
    ensures forall id :: !HasManifest(b.objects, id) ==> !HasManifest(c.objects, id)
  {
  }

  /** The keys of one kind before `n` are gone. */
  ghost predicate GoneUpTo(w: World, keys: seq<Key>, n: nat, manifests: bool)
    requires n <= |keys|
  {
    forall j :: 0 <= j < n && IsManifestKey(keys[j]) == manifests ==> keys[j] !in w.objects
  }

  lemma OneMoreGone(b: World, c: World, keys: seq<Key>, n: nat, manifests: bool)
    requires n < |keys| && GoneUpTo(b, keys, n, manifests) && c.objects.Keys <= b.objects.Keys
    requires IsManifestKey(keys[n]) == manifests ==> keys[n] !in c.objects
    ensures GoneUpTo(c, keys, n + 1, manifests)
  {
  }

  lemma OneMoreArchive(before: Objects, id: string, entries: seq<Entry>, volume: string, size: int)
    requires Complete(before, id, Manifest("", entries)) && !IsManifestKey(In(id, ArchiveRest(volume)))
    requires forall k :: 0 <= k < |entries| ==> entries[k].key != In(id, ArchiveRest(volume))
    ensures var key := In(id, ArchiveRest(volume));
            Complete(before[key := Object(size, None)], id, Manifest("", entries + [Entry(volume, key, size)]))
  {
  }

  lemma RunGrows(trace: seq<World>, effects: seq<Effect>, e: Effect)
    requires IsRun(trace, effects) && May(trace[|effects|], e)
    ensures IsRun(trace + [Next(trace[|effects|], e)], effects + [e])
  {
  }

  class Runner {
    var w: World
    ghost var trace: seq<World>
    ghost var effects: seq<Effect>

    ghost predicate Valid()
      reads this
    {
      IsRun(trace, effects) && trace[|effects|] == w && Restorable(trace[0]) && Restorable(w)
    }

    constructor (w: World)
      requires Restorable(w)
      ensures Valid() && this.w == w
    {
      this.w := w;
      trace := [w];
      effects := [];
    }

    method Become(e: Effect)
      requires Valid() && May(w, e)
      modifies this
      ensures Valid() && w == Next(old(w), e) && old(effects) <= effects
    {
      RunGrows(trace, effects, e);
      EffectKeepsRestorable(w, e);
      w := Next(w, e);
      trace := trace + [w];
      effects := effects + [e];
    }

    /** Uploads one archive and reads back the size the store has for it. A
        failed upload may have stored anything. */
    method UploadAndVerify(id: string, volume: string, size: int) returns (ok: bool)
      requires Valid() && !HasManifest(w.objects, id)
      modifies this
      ensures Valid() && old(effects) <= effects
      ensures w == old(w).(objects := w.objects) && In(id, MANIFEST) !in w.objects - old(w).objects.Keys
      ensures || w.objects == old(w).objects
              || exists stored :: w.objects == old(w).objects[In(id, ArchiveRest(volume)) := Object(stored, None)]
      ensures ok ==> w.objects == old(w).objects[In(id, ArchiveRest(volume)) := Object(size, None)]
    {
      var reached, accepted, answered: bool := *, *, *;
      var stored: int := *;
      AnArchiveIsNoManifest(id, volume);
      TheManifestKeyIsOne(id);
      if reached || accepted {
        Become(PutArchive(id, ArchiveRest(volume), stored));
      }
      if !accepted || !answered {
        return false;
      }
      return w.objects[In(id, ArchiveRest(volume))].size == size;
    }

    /** Archives, uploads and verifies the volumes in order; the first failure
        abandons the generation. */
    method CaptureVolumes(id: string, volumes: seq<string>) returns (ok: bool, entries: seq<Entry>)
      requires Valid() && Fresh(w, id)
      requires forall i, j :: 0 <= i < j < |volumes| ==> volumes[i] != volumes[j]
      modifies this
      ensures Valid() && old(effects) <= effects
      ensures w.committed == old(w).committed && OnlyUnder(old(w), w, id) && In(id, MANIFEST) !in w.objects
      ensures ok ==> |entries| == |volumes| && forall i :: 0 <= i < |volumes| ==>
                entries[i].volume == volumes[i] && entries[i].key == In(id, ArchiveRest(volumes[i]))
      ensures ok ==> Complete(w.objects, id, Manifest("", entries))
    {
      entries := [];
      for i := 0 to |volumes|
        invariant Valid() && old(effects) <= effects
        invariant w.committed == old(w).committed && OnlyUnder(old(w), w, id) && In(id, MANIFEST) !in w.objects
        invariant |entries| == i
        invariant forall k :: 0 <= k < i ==> entries[k].volume == volumes[k] && entries[k].key == In(id, ArchiveRest(volumes[k]))
        invariant Complete(w.objects, id, Manifest("", entries))
      {
        var archived: bool := *;
        var size: int := *;
        if !archived {
          return false, entries;
        }
        AnArchiveIsNoManifest(id, volumes[i]);
        TheManifestKeyIsOne(id);
        ghost var before := w.objects;
        var uploaded := UploadAndVerify(id, volumes[i], size);
        if !uploaded {
          return false, entries;
        }
        ArchivesDiffer(volumes, i);
        OneMoreArchive(before, id, entries, volumes[i], size);
        entries := entries + [Entry(volumes[i], In(id, ArchiveRest(volumes[i])), size)];
      }
      return true, entries;
    }

    lemma ArchivesDiffer(volumes: seq<string>, i: nat)
      requires i < |volumes| && forall i, j :: 0 <= i < j < |volumes| ==> volumes[i] != volumes[j]
      ensures forall k :: 0 <= k < i ==> ArchiveRest(volumes[k]) != ArchiveRest(volumes[i])
    {
      forall k | 0 <= k < i ensures ArchiveRest(volumes[k]) != ArchiveRest(volumes[i]) {
        var a, b := ArchiveRest(volumes[k]), ArchiveRest(volumes[i]);
        assert a[..|a| - 7] == volumes[k] && b[..|b| - 7] == volumes[i];
      }
    }

    /** Writes the manifest once every archive is verified. */
    method WriteManifest(id: string, uid: string, entries: seq<Entry>) returns (ok: bool)
      requires Valid() && In(id, MANIFEST) !in w.objects && Complete(w.objects, id, Manifest(uid, entries))
      modifies this
      ensures Valid() && old(effects) <= effects
      ensures w.committed == old(w).committed && OnlyUnder(old(w), w, id)
      ensures ok ==> HasManifest(w.objects, id) && w.objects[In(id, MANIFEST)].manifest.value == Manifest(uid, entries)
    {
      var reached: bool := *;
      var size: int := *;
      ok := *;
      if reached || ok {
        Become(PutManifest(id, size, Manifest(uid, entries)));
      }
    }

    /** Asks the server to make the generation the restore source. */
    method CommitBackup(id: string) returns (ok: bool)
      requires Valid() && HasManifest(w.objects, id)
      modifies this
      ensures Valid() && old(effects) <= effects
      ensures w.objects == old(w).objects && (w.committed == old(w).committed || w.committed == id)
      ensures ok ==> w.committed == id
    {
      var reached: bool := *;
      ok := *;
      if reached || ok {
        Become(Commit(id));
      }
    }

    /** One backup generation of a Project with distinct volumes, under an ID
        never used before. Success commits it; without success the restore
        source is the one before, or this one and complete. */
    method Run(id: string, uid: string, volumes: seq<string>, statusCommitted: string, unreadable: set<Key>) returns (ok: bool)
      requires Valid() && Fresh(w, id)
      requires forall i, j :: 0 <= i < j < |volumes| ==> volumes[i] != volumes[j]
      modifies this
      ensures Valid() && old(effects) <= effects
      ensures ok ==> volumes != [] && w.committed == id && HasManifest(w.objects, id)
      ensures !ok ==> OnlyUnder(old(w), w, id) && (w.committed == old(w).committed || w.committed == id)
    {
      if volumes == [] {
        return false;
      }
      var prepared: bool := *;
      if !prepared {
        return false;
      }
      var captured, entries := CaptureVolumes(id, volumes);
      if !captured {
        return false;
      }
      var written := WriteManifest(id, uid, entries);
      if !written {
        return false;
      }
      ok := CommitBackup(id);
      if ok {
        var _, _ := PruneGenerations(uid, {id, statusCommitted}, unreadable);
      }
    }

    // ------------------------------------------------------------- pruning

    /** Every key in the store, in some order. */
    method List() returns (listing: seq<Key>)
      requires Valid()
      ensures forall k :: k in listing <==> k in w.objects
    {
      listing := [];
      var left := w.objects.Keys;
      while left != {}
        invariant left <= w.objects.Keys
        invariant forall k :: k in listing <==> k in w.objects && k !in left
        decreases left
      {
        var k :| k in left;
        listing := listing + [k];
        left := left - {k};
      }
    }

    /** One key of a generation, its manifest or, when that is gone, another. */
    method DeleteOne(key: Key, manifest: bool) returns (done: bool)
      requires Valid() && key.In? && key.id != w.committed && IsManifestKey(key) == manifest
      requires !manifest ==> !HasManifest(w.objects, key.id)
      modifies this
      ensures Valid() && old(effects) <= effects && w.committed == old(w).committed
      ensures OnlyDeleted(old(w), w, [key])
      ensures done ==> key !in w.objects
    {
      var reached: bool;
      reached, done := *, *;
      if reached || done {
        Become(Delete(key));
      }
    }

    /** Deletes one kind of a generation's keys, stopping at the first failure. */
    method DeleteKeys(id: string, keys: seq<Key>, manifests: bool) returns (ok: bool)
      requires Valid() && id != w.committed
      requires forall k :: k in keys ==> k.In? && k.id == id
      requires !manifests ==> !HasManifest(w.objects, id)
      modifies this
      ensures Valid() && old(effects) <= effects && w.committed == old(w).committed
      ensures OnlyDeleted(old(w), w, keys)
      ensures ok ==> forall k :: k in keys && IsManifestKey(k) == manifests ==> k !in w.objects
    {
      for i := 0 to |keys|
        invariant Valid() && old(effects) <= effects && w.committed == old(w).committed
        invariant OnlyDeleted(old(w), w, keys)
        invariant !manifests ==> !HasManifest(w.objects, id)
        invariant GoneUpTo(w, keys, i, manifests)
      {
        ghost var before := w;
        if IsManifestKey(keys[i]) == manifests {
          ok := DeleteOne(keys[i], manifests);
          DeletedMore(old(w), before, w, keys, keys[i]);
          if !ok {
            return;
          }
        }
        OneMoreGone(before, w, keys, i, manifests);
      }
      return true;
    }

    /** Every manifest goes before any archive: at whatever object this stops, no
        manifest of the generation names an archive that is gone. */
    method DeleteGeneration(id: string, keys: seq<Key>) returns (ok: bool)
      requires Valid() && id != w.committed
      requires forall k :: k in keys ==> k.In? && k.id == id
      requires forall k :: k in w.objects && k.In? && k.id == id ==> k in keys
      modifies this
      ensures Valid() && old(effects) <= effects && w.committed == old(w).committed
      ensures OnlyDeleted(old(w), w, keys)
      ensures ok ==> forall k :: k in keys ==> k !in w.objects
    {
      ok := DeleteKeys(id, keys, true);
      if ok {
        TheManifestKeyIsOne(id);
        ok := DeleteKeys(id, keys, false);
      }
    }

    /** The generations of this UID and those without a manifest. */
    method Classify(v: View, uid: string) returns (ours: seq<string>, abandoned: seq<string>)
      ensures Elements(ours) == Ours(v, uid)
      ensures forall id :: id in abandoned <==> IsAbandoned(v, id)
    {
      ours, abandoned := [], [];
      var left := IDs(v.listing);
      while left != {}
        invariant left <= IDs(v.listing)
        invariant forall id :: id in ours <==> id in Ours(v, uid) && id !in left
        invariant forall id :: id in abandoned <==> IsAbandoned(v, id) && id !in left
        decreases left
      {
        var id :| id in left;
        var m := ManifestOf(KeysOf(v.listing, id));
        if m.None? {
          abandoned := abandoned + [id];
        } else if NamedUID(v.objects, v.unreadable, m.value) == uid {
          ours := ours + [id];
        }
        left := left - {id};
      }
    }

    /** The listing covers the store, and only generations in `doomed` lost
        anything since. */
    ghost predicate Pruning(v: View, doomed: set<string>)
      reads this
    {
      && OnlyDeleted(World(v.objects, w.committed), w, v.listing)
      && (forall k :: k in v.objects ==> k in v.listing)
      && (forall k :: k in v.objects && k !in w.objects ==> k.In? && k.id in doomed)
    }

    method DeleteDoomed(v: View, ghost doomed: set<string>, id: string) returns (ok: bool)
      requires Valid() && Pruning(v, doomed) && id in doomed && id != w.committed
      modifies this
      ensures Valid() && old(effects) <= effects && w.committed == old(w).committed
      ensures Pruning(v, doomed) && w.objects.Keys <= old(w).objects.Keys
      ensures ok ==> Emptied(w, id)
    {
      ok := DeleteGeneration(id, KeysOf(v.listing, id));
    }

    method DeleteOld(v: View, ghost doomed: set<string>, protected: set<string>, ours: seq<string>) returns (ok: bool)
      requires Valid() && Pruning(v, doomed) && w.committed in protected
      requires forall i :: RETAIN_GENERATIONS <= i < |ours| && ours[i] !in protected ==> ours[i] in doomed
      modifies this
      ensures Valid() && old(effects) <= effects && w.committed == old(w).committed
      ensures Pruning(v, doomed)
      ensures ok ==> forall i :: RETAIN_GENERATIONS <= i < |ours| && ours[i] !in protected ==> Emptied(w, ours[i])
    {
      ok := true;
      var i := RETAIN_GENERATIONS;
      while i < |ours|
        invariant RETAIN_GENERATIONS <= i
        invariant Valid() && old(effects) <= effects && w.committed == old(w).committed
        invariant Pruning(v, doomed)
        invariant ok ==> forall j :: RETAIN_GENERATIONS <= j < i && j < |ours| && ours[j] !in protected ==> Emptied(w, ours[j])
      {
        if ours[i] !in protected {
          var done := DeleteDoomed(v, doomed, ours[i]);
          ok := ok && done;
        }
        i := i + 1;
      }
    }

    method DeleteAbandoned(v: View, ghost doomed: set<string>, oldestKept: string, abandoned: seq<string>) returns (ok: bool)
      requires Valid() && Pruning(v, doomed)
      requires forall id :: id in abandoned ==> id != w.committed && (Less(id, oldestKept) ==> id in doomed)
      modifies this
      ensures Valid() && old(effects) <= effects && w.committed == old(w).committed
      ensures Pruning(v, doomed) && w.objects.Keys <= old(w).objects.Keys
      ensures ok ==> forall id :: id in abandoned && Less(id, oldestKept) ==> Emptied(w, id)
    {
      ok := true;
      for i := 0 to |abandoned|
        invariant Valid() && old(effects) <= effects && w.committed == old(w).committed
        invariant Pruning(v, doomed) && w.objects.Keys <= old(w).objects.Keys
        invariant ok ==> forall j :: 0 <= j < i && Less(abandoned[j], oldestKept) ==> Emptied(w, abandoned[j])
      {
        if Less(abandoned[i], oldestKept) {
          var done := DeleteDoomed(v, doomed, abandoned[i]);
          ok := ok && done;
        }
      }
    }

    /** Deletes this UID's generations beyond the retained ones, and what is
        abandoned below them; `unreadable` are the manifests that cannot be read
        now. Nothing but doomed generations loses an object, and if every
        deletion works no doomed generation keeps one. */
    method PruneGenerations(uid: string, protected: set<string>, unreadable: set<Key>) returns (v: View, complete: bool)
      requires Valid() && w.committed in protected && w.committed != ""
      modifies this
      ensures Valid() && old(effects) <= effects && w.committed == old(w).committed
      ensures v.objects == old(w).objects && v.unreadable == unreadable && OnlyDeleted(old(w), w, v.listing)
      ensures forall k :: k in v.objects && k !in w.objects ==> uid != "" && k.In? && Doomed(v, uid, protected, k.id)
      ensures complete ==> forall id :: Doomed(v, uid, protected, id) ==> Emptied(w, id)
    {
      v := View([], w.objects, unreadable);
      var listed: bool := *;
      if uid == "" || !listed {
        return v, false;
      }
      var listing := List();
      v := View(listing, w.objects, unreadable);
      var ids, abandoned := Classify(v, uid);
      var ours := SortNewestFirst(ids);
      if |ours| < RETAIN_GENERATIONS {
        forall id ensures !Doomed(v, uid, protected, id) {
          OlderThanTheNth(ours, RETAIN_GENERATIONS, id);
        }
        return v, true;
      }
      TheManifestKeyIsOne(w.committed);
      assert In(w.committed, MANIFEST) in listing;
      ghost var doomed := set id | id in IDs(listing) && Doomed(v, uid, protected, id);
      DoomedInOrder(v, uid, protected, ours);
      var oldOnes := DeleteOld(v, doomed, protected, ours);
      var uploads := DeleteAbandoned(v, doomed, ours[RETAIN_GENERATIONS - 1], abandoned);
      complete := oldOnes && uploads;
      forall id | complete && Doomed(v, uid, protected, id) ensures Emptied(w, id) {
        EveryDoomedIsReached(v, uid, protected, ours, id);
      }
    }

    lemma DoomedInOrder(v: View, uid: string, protected: set<string>, ours: seq<string>)
      requires NewestFirst(ours) && Elements(ours) == Ours(v, uid) && |ours| >= RETAIN_GENERATIONS
      ensures forall i :: RETAIN_GENERATIONS <= i < |ours| && ours[i] !in protected ==>
                ours[i] in IDs(v.listing) && Doomed(v, uid, protected, ours[i])
      ensures forall id :: IsAbandoned(v, id) && Less(id, ours[RETAIN_GENERATIONS - 1]) ==> Doomed(v, uid, protected, id)
    {
      forall i | RETAIN_GENERATIONS <= i < |ours| && ours[i] !in protected
        ensures ours[i] in IDs(v.listing) && Doomed(v, uid, protected, ours[i])
      {
        PositionIsAge(ours, i);
        assert ours[i] in Elements(ours);
      }
      forall id | IsAbandoned(v, id) && Less(id, ours[RETAIN_GENERATIONS - 1]) ensures Doomed(v, uid, protected, id) {
        OlderThanTheNth(ours, RETAIN_GENERATIONS, id);
      }
    }

    lemma EveryDoomedIsReached(v: View, uid: string, protected: set<string>, ours: seq<string>, id: string)
      requires NewestFirst(ours) && Elements(ours) == Ours(v, uid) && |ours| >= RETAIN_GENERATIONS
      requires Doomed(v, uid, protected, id)
      ensures id in Ours(v, uid) && id !in protected ==> exists i :: RETAIN_GENERATIONS <= i < |ours| && ours[i] == id
      ensures IsAbandoned(v, id) ==> Less(id, ours[RETAIN_GENERATIONS - 1])
    {
      OlderThanTheNth(ours, RETAIN_GENERATIONS, id);
      if id in Ours(v, uid) {
        var i :| 0 <= i < |ours| && ours[i] == id;
        PositionIsAge(ours, i);
      }
    }
  }
}
