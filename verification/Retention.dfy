/** Which generations pruning deletes, for any listing of the object store. */
module Retention {
  import opened Text
  import opened BackupStore

  const RETAIN_GENERATIONS := 7

  function IDs(listing: seq<Key>): set<string> {
    set k | k in listing && k.In? :: k.id
  }

  /** The keys of one generation, as listed. */
  function KeysOf(listing: seq<Key>, id: string): (r: seq<Key>)
    ensures forall k :: k in r <==> k in listing && k.In? && k.id == id
  {
    if listing == [] then []
    else
      var rest := KeysOf(listing[..|listing| - 1], id);
      var last := listing[|listing| - 1];
      if last.In? && last.id == id then rest + [last] else rest
  }

  /** The first key named as a manifest. */
  function ManifestOf(keys: seq<Key>): (r: Option<Key>)
    ensures r.Some? ==> r.value in keys && IsManifestKey(r.value)
    ensures r.None? ==> forall k :: k in keys ==> !IsManifestKey(k)
  {
    if keys == [] then None else if IsManifestKey(keys[0]) then Some(keys[0]) else ManifestOf(keys[1..])
  }

  /** The UID a manifest names; "" when it names none, does not parse or is one
      of the objects that cannot be read. */
  function NamedUID(objects: Objects, unreadable: set<Key>, k: Key): string {
    if k in unreadable || k !in objects || objects[k].manifest.None? then "" else objects[k].manifest.value.uid
  }

  /** A listing of the store and what can be read of it. */
  datatype View = View(listing: seq<Key>, objects: Objects, unreadable: set<Key>)

  predicate IsOurs(v: View, uid: string, id: string) {
    var m := ManifestOf(KeysOf(v.listing, id));
    m.Some? && NamedUID(v.objects, v.unreadable, m.value) == uid
  }

  /** An upload without a manifest. */
  predicate IsAbandoned(v: View, id: string) {
    id in IDs(v.listing) && ManifestOf(KeysOf(v.listing, id)).None?
  }

  function Ours(v: View, uid: string): set<string> {
    set id | id in IDs(v.listing) && IsOurs(v, uid, id)
  }

  function Newer(ours: set<string>, id: string): set<string> {
    set x | x in ours && Less(id, x)
  }

  /** What pruning deletes: generations at least seven of this UID's are newer
      than, if they are this UID's and not protected, or have no manifest. */
  predicate Doomed(v: View, uid: string, protected: set<string>, id: string) {
    && |Newer(Ours(v, uid), id)| >= RETAIN_GENERATIONS
    && ((id in Ours(v, uid) && id !in protected) || IsAbandoned(v, id))
  }

  // ------------------------------------------------------------ in order

  function Reversed(xs: seq<string>): (r: seq<string>)
    ensures |r| == |xs| && forall i :: 0 <= i < |xs| ==> r[i] == xs[|xs| - 1 - i]
  {
    if xs == [] then [] else [xs[|xs| - 1]] + Reversed(xs[..|xs| - 1])
  }

  /** Newest first, as `sort.Slice` leaves them. */
  predicate NewestFirst(xs: seq<string>) {
    forall i, j :: 0 <= i < j < |xs| ==> Less(xs[j], xs[i])
  }

  method SortNewestFirst(ids: seq<string>) returns (r: seq<string>)
    ensures NewestFirst(r) && Elements(r) == Elements(ids)
  {
    var up := SortedUnique(ids);
    SortedUniqueIsSorted(ids);
    r := Reversed(up);
    forall x ensures x in r <==> x in up {
      if x in up {
        var i :| 0 <= i < |up| && up[i] == x;
        assert r[|up| - 1 - i] == x;
      }
    }
  }

  lemma {:induction false} DistinctCount(xs: seq<string>)
    requires forall i, j :: 0 <= i < j < |xs| ==> xs[i] != xs[j]
    ensures |Elements(xs)| == |xs|
  {
    if xs != [] {
      var front := xs[..|xs| - 1];
      DistinctCount(front);
      assert xs == front + [xs[|xs| - 1]];
      ElementsOfJoin(front, [xs[|xs| - 1]]);
      assert Elements([xs[|xs| - 1]]) == {xs[|xs| - 1]};
      assert xs[|xs| - 1] !in Elements(front);
    }
  }

  lemma NewestFirstIsDistinct(xs: seq<string>)
    requires NewestFirst(xs)
    ensures forall i, j :: 0 <= i < j < |xs| ==> xs[i] != xs[j]
  {
    forall i, j | 0 <= i < j < |xs| ensures xs[i] != xs[j] {
      LessIsTotal(xs[i], xs[j]);
    }
  }

  /** The first `n` of an ordered list are the newest: an ID has at least `n` of
      the list newer than it exactly when it is older than the n-th. */
  lemma OlderThanTheNth(xs: seq<string>, n: nat, id: string)
    requires NewestFirst(xs) && n > 0
    ensures |Newer(Elements(xs), id)| >= n <==> n <= |xs| && Less(id, xs[n - 1])
  {
    NewestFirstIsDistinct(xs);
    if n <= |xs| && Less(id, xs[n - 1]) {
      var top := xs[..n];
      DistinctCount(top);
      forall x | x in Elements(top) ensures x in Newer(Elements(xs), id) {
        var i :| 0 <= i < n && xs[i] == x;
        if i < n - 1 { LessIsTransitive(id, xs[n - 1], xs[i]); }
      }
      Subset(Elements(top), Newer(Elements(xs), id));
    } else {
      var top := if n <= |xs| then xs[..n - 1] else xs;
      DistinctCount(top);
      forall x | x in Newer(Elements(xs), id) ensures x in Elements(top) {
        var i :| 0 <= i < |xs| && xs[i] == x;
        if n <= |xs| && i >= n {
          LessIsTransitive(id, xs[i], xs[n - 1]);
        }
        assert i < |top| && top[i] == x;
      }
      Subset(Newer(Elements(xs), id), Elements(top));
    }
  }

  lemma {:induction false} Subset(a: set<string>, b: set<string>)
    requires a <= b
    ensures |a| <= |b|
  {
    if a != {} {
      var x :| x in a;
      Subset(a - {x}, b - {x});
    }
  }

  /** Position in the list and number of newer ones agree. */
  lemma PositionIsAge(xs: seq<string>, i: nat)
    requires NewestFirst(xs) && i < |xs|
    ensures |Newer(Elements(xs), xs[i])| >= RETAIN_GENERATIONS <==> i >= RETAIN_GENERATIONS
  {
    var n := RETAIN_GENERATIONS;
    OlderThanTheNth(xs, n, xs[i]);
    if n <= |xs| && i < n - 1 {
      LessIsTotal(xs[i], xs[n - 1]);
    } else if i == n - 1 {
      LessIsTotal(xs[i], xs[i]);
    }
  }

  // ---------------------------------------------- what pruning never does

  /** For every listing: the newest seven of this UID stay, so do the protected
      ones, and nothing of another UID, of none, or unreadable is deleted; an
      upload without a manifest goes only below everything kept. */
  lemma {:induction false} PruningIsConservative(v: View, uid: string, protected: set<string>, id: string)
    requires uid != "" && Doomed(v, uid, protected, id)
    ensures |Ours(v, uid)| >= RETAIN_GENERATIONS
    ensures var m := ManifestOf(KeysOf(v.listing, id));
            m.Some? ==> NamedUID(v.objects, v.unreadable, m.value) == uid && id !in protected
    ensures ManifestOf(KeysOf(v.listing, id)).None? ==>
              forall kept :: kept in Ours(v, uid) && !Doomed(v, uid, protected, kept) && kept !in protected ==> !Less(kept, id)
  {
    var ours := Ours(v, uid);
    Subset(Newer(ours, id), ours);
    if ManifestOf(KeysOf(v.listing, id)).None? {
      forall kept | kept in ours && !Doomed(v, uid, protected, kept) && kept !in protected ensures !Less(kept, id) {
        if Less(kept, id) {
          forall x | x in Newer(ours, id) ensures x in Newer(ours, kept) {
            LessIsTransitive(kept, id, x);
          }
          Subset(Newer(ours, id), Newer(ours, kept));
        }
      }
    }
  }

  /** What is left of this UID's once everything doomed is gone: at most seven,
      besides the protected ones. */
  lemma {:induction false} PruningIsThorough(v: View, uid: string, protected: set<string>)
    ensures |set id | id in Ours(v, uid) && !Doomed(v, uid, protected, id) && id !in protected| <= RETAIN_GENERATIONS
  {
    var ours := Ours(v, uid);
    var left := set id | id in ours && !Doomed(v, uid, protected, id) && id !in protected;
    if |left| > RETAIN_GENERATIONS {
      var xs := ListNewestFirst(left);
      NewestFirstIsDistinct(xs);
      DistinctCount(xs);
      var last := xs[RETAIN_GENERATIONS];
      assert last in Elements(xs);
      PositionIsAge(xs, RETAIN_GENERATIONS);
      forall x | x in Newer(left, last) ensures x in Newer(ours, last) {
      }
      Subset(Newer(left, last), Newer(ours, last));
    }
  }

  lemma ListNewestFirst(s: set<string>) returns (xs: seq<string>)
    ensures NewestFirst(xs) && Elements(xs) == s
  {
    var any := AnyOrder(s);
    var up := SortedUnique(any);
    SortedUniqueIsSorted(any);
    xs := Reversed(up);
    forall x ensures x in xs <==> x in up {
      if x in up {
        var i :| 0 <= i < |up| && up[i] == x;
        assert xs[|up| - 1 - i] == x;
      }
    }
  }
}
