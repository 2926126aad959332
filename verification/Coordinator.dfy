/** Who is doing what to a Project: one operation at a time, or none. */
module Coordinator {

  datatype Key = Key(namespace: string, name: string)

  datatype Operation =
    | OpBackup | OpRestore | OpTerminate | OpFinalBackup | OpGC | OpOrphanCleanup | OpRecovery | OpPlacement | OpUpdate

  /** `issued` are the release functions handed out, `live` those of the claims
      that stand. */
  class Claims {
    var claims: map<Key, Operation>
    ghost var issued: set<Release>
    ghost var live: map<Key, Release>

    ghost predicate Valid()
      reads this, issued
    {
      && claims.Keys == live.Keys
      && (forall r :: r in issued ==> r.owner == this && (!r.called ==> r.key in live && live[r.key] == r))
      && (forall k :: k in live ==> live[k] in issued && live[k].key == k && !live[k].called)
    }

    constructor ()
      ensures Valid() && claims == map[] && issued == {}
    {
      claims, issued, live := map[], {}, map[];
    }

    /** Never waits: whoever finds the Project taken is turned away. */
    method TryClaim(key: Key, op: Operation) returns (release: Release?, ok: bool)
      requires Valid()
      modifies this
      ensures Valid()
      ensures ok <==> key !in old(claims)
      ensures ok <==> release != null
      ensures !ok ==> claims == old(claims) && issued == old(issued)
      ensures ok ==>
                && fresh(release) && issued == old(issued) + {release} && !release.called && release.key == key
                && release.owner == this && claims == old(claims)[key := op]
    {
      if key in claims {
        return null, false;
      }
      claims := claims[key := op];
      var r := new Release(this, key);
      issued := issued + {r};
      live := live[key := r];
      return r, true;
    }

    /** Busy means that someone was given a release function for the Project and has
        not called it. */
    method IsBusy(key: Key) returns (busy: bool)
      requires Valid()
      ensures busy <==> exists r :: r in issued && r.key == key && !r.called
    {
      busy := key in claims;
    }
  }

  /** The function that gives a claim back. */
  class Release {
    const owner: Claims
    const key: Key
    var called: bool

    constructor (owner: Claims, key: Key)
      ensures this.owner == owner && this.key == key && !called
    {
      this.owner, this.key, called := owner, key, false;
    }

    /** Only the first call does anything: a late second one cannot take away the
        claim of whoever came next. */
    method Call()
      requires owner.Valid() && this in owner.issued
      modifies this`called, owner
      ensures owner.Valid() && called && owner.issued == old(owner.issued)
      ensures owner.claims == if old(called) then old(owner.claims) else old(owner.claims) - {key}
    {
      if called {
        return;
      }
      called := true;
      owner.claims := owner.claims - {key};
      owner.live := owner.live - {key};
    }
  }

  /** Taking a claim and giving it back leaves the others as they were. */
  lemma ClaimAndRelease(claims: map<Key, Operation>, key: Key, op: Operation)
    requires key !in claims
    ensures claims[key := op] - {key} == claims
  {
  }

  /** Two claims on one Project that both stand are one and the same. */
  lemma AtMostOneHolder(c: Claims, a: Release, b: Release)
    requires c.Valid() && a in c.issued && b in c.issued && a.key == b.key && !a.called && !b.called
    ensures a == b && a.key in c.claims
  {
  }
}
