/** Evidence that a Node has given an assignment up: what it holds is removed,
    read back, and only then reported. */
module Cleanup {
  import opened ProjectStatus
  import C = Coordinator

  /** Something of one kind held for an assignment. */
  datatype Item = Item(uid: string, generation: int, name: string)

  /** What a removal is for: one assignment, or every one of the lifetime. */
  datatype Scope = One(uid: string, generation: int) | Lifetime(uid: string)

  /** Some kinds belong to a lifetime: any assignment's removal is for all of it. */
  datatype Kind = PerAssignment | PerLifetime

  predicate InScope(kind: Kind, i: Item, scope: Scope) {
    i.uid == scope.uid && (scope.Lifetime? || kind.PerLifetime? || i.generation == scope.generation)
  }

  function HeldIn(kind: Kind, items: set<Item>, scope: Scope): set<Item> {
    set i | i in items && InScope(kind, i, scope)
  }

  /** Why a removal may be made: the record as read hands the cleanup over to this
      Node, or this Node is told to terminate the Project. */
  datatype License = ByRecord(id: Identity, read: Record, me: string) | ByTermination(uid: string)

  predicate Licenses(l: License, scope: Scope) {
    match l
    case ByRecord(id, read, me) => HandedOver(read, id, me) && scope == One(id.uid, id.generation)
    case ByTermination(uid) => scope == Lifetime(uid)
  }

  /** The registered kinds of one Node and what it holds of each. `license` is what
      the operation under way has been given so far. */
  class Resources {
    const kinds: seq<Kind>
    var held: seq<set<Item>>
    ghost var license: Option<License>

    /** An operation begins, or learns why it may go on. */
    ghost method Give(l: Option<License>)
      modifies this`license
      ensures license == l
    {
      license := l;
    }

    ghost predicate Licensed(scope: Scope)
      reads this
    {
      license.Some? && Licenses(license.value, scope)
    }

    predicate Valid()
      reads this
    {
      |held| == |kinds|
    }

    /** Nothing of any kind is held for `scope`. */
    predicate Empty(scope: Scope)
      requires Valid()
      reads this
    {
      forall k :: 0 <= k < |kinds| ==> HeldIn(kinds[k], held[k], scope) == {}
    }

    constructor (kinds: seq<Kind>, held: seq<set<Item>>)
      requires |held| == |kinds|
      ensures Valid() && this.kinds == kinds && this.held == held
    {
      this.kinds, this.held, license := kinds, held, None;
    }

    /** May fail, having removed some of it. Nothing is removed without a license. */
    method Remove(k: nat, scope: Scope) returns (ok: bool)
      requires Valid() && k < |kinds| && Licensed(scope)
      modifies this`held
      ensures Valid() && held == old(held)[k := held[k]]
      ensures old(held)[k] - HeldIn(kinds[k], old(held)[k], scope) <= held[k] <= old(held)[k]
      ensures ok ==> HeldIn(kinds[k], held[k], scope) == {}
    {
      ok := *;
      var gone: set<Item> := *;
      held := held[k := held[k] - if ok then HeldIn(kinds[k], held[k], scope) else gone * HeldIn(kinds[k], held[k], scope)];
    }

    method Remaining(k: nat, scope: Scope) returns (ok: bool, left: set<Item>)
      requires Valid() && k < |kinds|
      ensures ok ==> left == HeldIn(kinds[k], held[k], scope)
    {
      ok := *;
      left := HeldIn(kinds[k], held[k], scope);
    }
  }

  /** What was there and is in no way `scope`'s is there still. */
  ghost predicate LeavesOutside(kinds: seq<Kind>, a: seq<set<Item>>, b: seq<set<Item>>, scope: Scope)
    requires |a| == |b| == |kinds|
  {
    forall k :: 0 <= k < |kinds| ==> a[k] - HeldIn(kinds[k], a[k], scope) <= b[k] <= a[k]
  }

  /** Removes every kind, each even when an earlier one failed: `failed` are those
      that did, and of all others nothing is left. */
  method RemoveAll(node: Resources, scope: Scope) returns (ok: bool, ghost failed: set<nat>)
    requires node.Valid() && node.Licensed(scope)
    modifies node`held
    ensures node.Valid() && LeavesOutside(node.kinds, old(node.held), node.held, scope)
    ensures ok <==> failed == {}
    ensures forall k: nat :: k < |node.kinds| && k !in failed ==> HeldIn(node.kinds[k], node.held[k], scope) == {}
    ensures ok ==> node.Empty(scope)
  {
    ok, failed := true, {};
    for k := 0 to |node.kinds|
      invariant node.Valid() && LeavesOutside(node.kinds, old(node.held), node.held, scope)
      invariant forall j :: k <= j < |node.kinds| ==> node.held[j] == old(node.held)[j]
      invariant ok <==> failed == {}
      invariant forall j: nat :: j < k && j !in failed ==> HeldIn(node.kinds[j], node.held[j], scope) == {}
    {
      var removed := node.Remove(k, scope);
      if !removed {
        ok, failed := false, failed + {k};
      }
    }
  }

  /** What is still held across every kind. One kind that cannot be read makes the
      answer unknown, never "none". */
  method Remaining(node: Resources, scope: Scope) returns (ok: bool, left: set<Item>)
    requires node.Valid()
    ensures ok && left == {} ==> node.Empty(scope)
    ensures ok ==> forall k, i :: 0 <= k < |node.kinds| && i in HeldIn(node.kinds[k], node.held[k], scope) ==> i in left
    ensures forall i :: i in left ==> exists k :: 0 <= k < |node.kinds| && i in HeldIn(node.kinds[k], node.held[k], scope)
  {
    left := {};
    for k := 0 to |node.kinds|
      invariant forall j, i :: 0 <= j < k && i in HeldIn(node.kinds[j], node.held[j], scope) ==> i in left
      invariant forall i :: i in left ==> exists j :: 0 <= j < |node.kinds| && i in HeldIn(node.kinds[j], node.held[j], scope)
    {
      var items;
      ok, items := node.Remaining(k, scope);
      if !ok {
        return false, {};
      }
      left := left + items;
    }
    ok := true;
    if left == {} {
      forall k | 0 <= k < |node.kinds| ensures HeldIn(node.kinds[k], node.held[k], scope) == {} {
        assert HeldIn(node.kinds[k], node.held[k], scope) <= left;
      }
    }
  }

  /** The record of the Project as the server has it now. */
  datatype Record = Record(uid: string, node: string, obligations: Obligations)

  /** The record still holds an unresolved obligation for `id`. */
  predicate Stands(r: Option<Record>, id: Identity) {
    && r.Some? && r.value.uid == id.uid
    && var at := Find(r.value.obligations, id);
       at.Some? && !r.value.obligations[at.value].Resolved()
  }

  datatype Read = Got(record: Record) | NotFound | Unreachable

  datatype Report = Accepted | Conflict | Vanished | Unanswered

  /** The server, which others write to between any two calls. `settled` are the
      identities whose obligation did not stand at some moment of the operation
      under way, so far as the Node was told. */
  class Server {
    const me: string
    var record: Option<Record>
    ghost var reported: set<Identity>
    ghost var settled: set<Identity>

    constructor (me: string, record: Option<Record>)
      ensures this.me == me && this.record == record && reported == {} && settled == {}
    {
      this.me, this.record, reported, settled := me, record, {}, {};
    }

    method GetProject() returns (r: Read)
      modifies this`record
      ensures r.Got? ==> record == Some(r.record)
      ensures r.NotFound? ==> record.None?
    {
      record := *;
      var reached: bool := *;
      return if !reached then Unreachable else if record.Some? then Got(record.value) else NotFound;
    }

    /** A report may be made only of an assignment this Node holds nothing for. The
        server takes it if the obligation is recorded, changing nothing if it is
        resolved already, and if nothing else writes at the same time. */
    method ReportResourcesRemoved(node: Resources, id: Identity) returns (r: Report)
      requires node.Valid() && id.node == me && node.Empty(One(id.uid, id.generation))
      modifies this`record, this`reported, this`settled
      ensures r.Accepted? ==> !Stands(record, id)
      ensures r.Accepted? ==> reported == old(reported) + {id} && settled == old(settled) + {id}
      ensures !r.Accepted? ==> reported == old(reported) && settled == old(settled)
    {
      record := *;
      var reached, collided: bool := *, *;
      if !reached {
        return Unanswered;
      }
      if record.None? {
        return Vanished;
      }
      if collided || record.value.uid != id.uid || Find(record.value.obligations, id).None? {
        return Conflict;
      }
      if Stands(record, id) {
        var obs := record.value.obligations;
        var at := Find(obs, id).value;
        ResolvingSettles(record.value, id);
        record := Some(record.value.(obligations := obs[at := obs[at].(removed := Some(0))]));
      }
      reported, settled := reported + {id}, settled + {id};
      return Accepted;
    }

    /** The Node has been told that the obligation does not stand. */
    ghost method Settle(id: Identity)
      requires !Stands(record, id)
      modifies this`settled
      ensures settled == old(settled) + {id}
    {
      settled := settled + {id};
    }
  }

  lemma ResolvingSettles(r: Record, id: Identity)
    requires Stands(Some(r), id)
    ensures var at := Find(r.obligations, id).value;
            !Stands(Some(r.(obligations := r.obligations[at := r.obligations[at].(removed := Some(0))])), id)
  {
    var at := Find(r.obligations, id).value;
    var obs := r.obligations[at := r.obligations[at].(removed := Some(0))];
    var found := Find(obs, id);
    assert obs[at].assignment == id;
    assert forall i :: 0 <= i < found.value ==> obs[i].assignment != id;
    assert found.value <= at;
  }

  /** How a 409 is read. An unknown answer counts as standing. */
  method ObligationStands(server: Server, id: Identity) returns (stands: bool)
    modifies server`record, server`settled
    ensures !stands ==> !Stands(server.record, id) && server.settled == old(server.settled) + {id}
    ensures stands ==> server.settled == old(server.settled)
  {
    var read := server.GetProject();
    match read {
      case Unreachable => return true;
      case NotFound => return true;
      case Got(p) =>
        if p.uid != id.uid {
          server.Settle(id);
          return false;
        }
        var at := Find(p.obligations, id);
        stands := at.Some? && !p.obligations[at.value].Resolved();
        if !stands {
          server.Settle(id);
        }
    }
  }

  /** The record, as read under the claim, hands the cleanup of `id` to this Node
      and says that it still has to be done. */
  predicate HandedOver(r: Record, id: Identity, me: string) {
    && id.node == me && r.uid == id.uid && r.node != me
    && var at := Find(r.obligations, id);
       at.Some? && r.obligations[at.value].Owing()
  }

  /** Asks the server again whether the task stands; anything but a clear yes is a
      reason to skip. Only a yes licenses the removal. */
  method RevalidateCleanup(server: Server, node: Resources, id: Identity) returns (ok: bool, obligation: Option<Obligation>)
    modifies server`record, node`license
    ensures !ok ==> node.license == old(node.license)
    ensures ok ==>
              && server.record.Some? && HandedOver(server.record.value, id, server.me)
              && obligation == Some(server.record.value.obligations[Find(server.record.value.obligations, id).value])
              && node.license == Some(ByRecord(id, server.record.value, server.me))
  {
    obligation := None;
    if id.node != server.me {
      return false, None;
    }
    var read := server.GetProject();
    match read {
      case Unreachable => return false, None;
      case NotFound => return false, None;
      case Got(p) =>
        if p.uid != id.uid || p.node == server.me {
          return false, None;
        }
        var at := Find(p.obligations, id);
        if at.None? {
          return false, None;
        }
        var o := p.obligations[at.value];
        ok, obligation := !o.Resolved() || o.DataOutstanding(), Some(o);
        if ok {
          node.Give(Some(ByRecord(id, p, server.me)));
        }
    }
  }

  datatype Outcome = Busy | Skipped | Incomplete | Confirmed(reported: bool, quarantined: bool)

  /** One cleanup task, under the Project's claim. Nothing is removed before the
      server has been asked again, nothing is reported before everything has been
      removed and read back empty, and data moves only after that. `read` is the
      record the task was acted on. */
  method RunCleanupTask(claims: C.Claims, server: Server, node: Resources, key: C.Key, id: Identity, hasDataRoot: bool)
    returns (r: Outcome, ghost read: Option<Record>)
    requires claims.Valid() && node.Valid()
    modifies claims, server, node`held, node`license
    ensures claims.Valid() && claims.claims == old(claims.claims) && node.Valid()
    ensures r.Busy? <==> key in old(claims.claims)
    ensures r.Busy? || r.Skipped? ==> node.held == old(node.held) && server.reported == old(server.reported)
    ensures r.Incomplete? || r.Confirmed? ==>
              read.Some? && HandedOver(read.value, id, server.me) && node.license == Some(ByRecord(id, read.value, server.me))
    ensures LeavesOutside(node.kinds, old(node.held), node.held, One(id.uid, id.generation))
    ensures r.Confirmed? ==> node.Empty(One(id.uid, id.generation))
    ensures server.reported == old(server.reported) + if r.Confirmed? && r.reported then {id} else {}
    ensures r.Confirmed? && r.quarantined ==>
              && hasDataRoot
              && var o := read.value.obligations[Find(read.value.obligations, id).value];
                 o.DataOutstanding() && (o.Resolved() || r.reported)
  {
    read := None;
    var release, taken := claims.TryClaim(key, C.OpOrphanCleanup);
    if !taken {
      return Busy, None;
    }
    C.ClaimAndRelease(old(claims.claims), key, C.OpOrphanCleanup);
    r, read := CleanUp(server, node, id, hasDataRoot);
    release.Call();
  }

  method CleanUp(server: Server, node: Resources, id: Identity, hasDataRoot: bool)
    returns (r: Outcome, ghost read: Option<Record>)
    requires node.Valid()
    modifies server, node`held, node`license
    ensures node.Valid() && !r.Busy?
    ensures r.Skipped? ==> node.held == old(node.held)
    ensures r.Incomplete? || r.Confirmed? ==>
              read.Some? && HandedOver(read.value, id, server.me) && node.license == Some(ByRecord(id, read.value, server.me))
    ensures LeavesOutside(node.kinds, old(node.held), node.held, One(id.uid, id.generation))
    ensures r.Confirmed? ==> node.Empty(One(id.uid, id.generation))
    ensures server.reported == old(server.reported) + if r.Confirmed? && r.reported then {id} else {}
    ensures r.Confirmed? && r.quarantined ==>
              && hasDataRoot
              && var o := read.value.obligations[Find(read.value.obligations, id).value];
                 o.DataOutstanding() && (o.Resolved() || r.reported)
  {
    node.Give(None);
    var ok, obligation := RevalidateCleanup(server, node, id);
    read := server.record;
    if !ok {
      return Skipped, None;
    }
    var scope := One(id.uid, id.generation);
    ghost var failed;
    ok, failed := RemoveAll(node, scope);
    if !ok {
      return Incomplete, read;
    }
    var left;
    ok, left := Remaining(node, scope);
    if !ok || left != {} {
      return Incomplete, read;
    }
    r := Confirmed(false, false);
    if !obligation.value.Resolved() {
      var report := server.ReportResourcesRemoved(node, id);
      if report.Conflict? {
        var stands := ObligationStands(server, id);
      }
      if !report.Accepted? {
        return;
      }
      r := Confirmed(true, false);
    }
    if obligation.value.DataOutstanding() && hasDataRoot {
      var moved, told: bool := *, *;
      r := r.(quarantined := moved && told);
    }
  }

  /** The identities a terminating Node must account for: its own, and every
      earlier one of this lifetime still open when the Project was polled. */
  function OwnObligations(p: Record, me: string, generation: int): seq<Identity> {
    [Identity(p.uid, me, generation)] + OpenHere(p.obligations, p.uid, me, generation)
  }

  function OpenHere(obs: Obligations, uid: string, me: string, generation: int): (r: seq<Identity>)
    ensures forall id :: id in r <==>
      exists o :: o in obs && o.assignment == id && !o.Resolved() && id.node == me && id.uid == uid && id.generation != generation
  {
    if obs == [] then []
    else
      var o := obs[|obs| - 1];
      var id := o.assignment;
      OpenHere(obs[..|obs| - 1], uid, me, generation)
      + if !o.Resolved() && id.node == me && id.uid == uid && id.generation != generation then [id] else []
  }

  predicate AllSettled(settled: set<Identity>, owed: seq<Identity>) {
    forall id :: id in owed ==> id in settled
  }

  /** The Node holds nothing of the lifetime, and each obligation of its own was
      resolved, or found not to stand. */
  ghost predicate GivenUp(node: Resources, server: Server, p: Record, generation: int)
    reads node, server
  {
    node.Valid() && node.Empty(Lifetime(p.uid)) && AllSettled(server.settled, OwnObligations(p, server.me, generation))
  }

  /** One report, and whether termination may go past it: only on an accepted
      report, or when a fresh read confirms there is nothing to resolve. */
  method ReportRemoved(server: Server, node: Resources, id: Identity) returns (ok: bool)
    requires node.Valid() && id.node == server.me && node.Empty(One(id.uid, id.generation))
    modifies server
    ensures old(server.settled) <= server.settled
    ensures ok ==> id in server.settled
  {
    var report := server.ReportResourcesRemoved(node, id);
    match report {
      case Accepted => return true;
      case Vanished => return false;
      case Unanswered => return false;
      case Conflict =>
        var stands := ObligationStands(server, id);
        return !stands;
    }
  }

  method ResolveOwnObligations(server: Server, node: Resources, p: Record, generation: int) returns (ok: bool)
    requires node.Valid() && node.Empty(Lifetime(p.uid))
    modifies server
    ensures old(server.settled) <= server.settled
    ensures ok ==> AllSettled(server.settled, OwnObligations(p, server.me, generation))
  {
    var owed := OwnObligations(p, server.me, generation);
    for i := 0 to |owed|
      invariant old(server.settled) <= server.settled
      invariant AllSettled(server.settled, owed[..i])
    {
      LifetimeCoversAll(node, owed[i]);
      ok := ReportRemoved(server, node, owed[i]);
      if !ok {
        return;
      }
    }
    return true;
  }

  lemma LifetimeCoversAll(node: Resources, id: Identity)
    requires node.Valid() && node.Empty(Lifetime(id.uid))
    ensures node.Empty(One(id.uid, id.generation))
  {
  }

  /** One poll of a Terminating Project. It ends in `Terminated` only from an empty
      read of the whole lifetime and with every obligation open here settled since;
      items of other lifetimes stay as they are whether it does or not. */
  method TerminateOne(claims: C.Claims, server: Server, node: Resources, key: C.Key, p: Record, generation: int)
    returns (terminated: bool)
    requires claims.Valid() && node.Valid() && server.settled == {}
    modifies claims, server, node`held, node`license
    ensures claims.Valid() && claims.claims == old(claims.claims) && node.Valid()
    ensures LeavesOutside(node.kinds, old(node.held), node.held, Lifetime(p.uid))
    ensures key in old(claims.claims) ==> !terminated && node.held == old(node.held)
    ensures terminated ==> GivenUp(node, server, p, generation)
  {
    var release, taken := claims.TryClaim(key, C.OpTerminate);
    terminated := false;
    if taken {
      C.ClaimAndRelease(old(claims.claims), key, C.OpTerminate);
      terminated := TearDown(server, node, p, generation);
      release.Call();
    }
  }

  method TearDown(server: Server, node: Resources, p: Record, generation: int) returns (terminated: bool)
    requires node.Valid() && server.settled == {}
    modifies server, node`held, node`license
    ensures node.Valid() && LeavesOutside(node.kinds, old(node.held), node.held, Lifetime(p.uid))
    ensures terminated ==> GivenUp(node, server, p, generation)
  {
    ghost var failed;
    var ok, left;
    node.Give(Some(ByTermination(p.uid)));
    ok, failed := RemoveAll(node, Lifetime(p.uid));
    if !ok {
      return false;
    }
    ok, left := Remaining(node, Lifetime(p.uid));
    if !ok || left != {} {
      return false;
    }
    ok := ResolveOwnObligations(server, node, p, generation);
    var told: bool := *;
    return ok && told;
  }
}
