/** Removing what one assignment, or one lifetime, left on a daemon, and reading
    back what is still there. */
module DockerRemoval {
  import opened Docker
  import opened DockerSpec

  /** Every listed container still has the labels it was listed with, if it is
      there at all. */
  ghost predicate StillLabelled(d: State, found: map<string, Container>) {
    forall n :: n in found ==>
      found[n].id < d.nextID && (Here(d, n, found[n].id) ==> d.containers[n].labels == found[n].labels)
  }

  /** Stops and removes one listed container, trying the second even when the
      first fails. */
  method StopAndRemove(daemon: Daemon, name: string, c: Container) returns (ok: bool)
    requires daemon.Valid() && c.id < daemon.d.nextID && Mine(c.labels, daemon.account.owner)
    requires Here(daemon.d, name, c.id) ==> daemon.d.containers[name].labels == c.labels
    modifies daemon
    ensures daemon.Valid() && daemon.Grows()
    ensures daemon.account == old(daemon.account).(touched := old(daemon.account).touched + {ServiceOf(c.labels)})
    ensures Persists(old(daemon.d), daemon.d)
    ensures daemon.quiet ==> daemon.d.nextID == old(daemon.d).nextID
    ensures daemon.quiet ==> daemon.d.containers - {name} == old(daemon.d).containers - {name}
    ensures daemon.quiet && ok && Here(old(daemon.d), name, c.id) ==> name !in daemon.d.containers
  {
    daemon.Touch(ServiceOf(c.labels));
    var stopped := daemon.Stop(name, c.id);
    var removed := daemon.Remove(name, c.id, true);
    ok := !stopped.Failed? && !removed.Failed?;
  }

  /** Stops and removes each of `which`, whatever becomes of the others. */
  method RemoveEach(daemon: Daemon, found: map<string, Container>, which: set<string>) returns (ok: bool)
    requires daemon.Valid() && which <= found.Keys && StillLabelled(daemon.d, found)
    requires forall n :: n in which ==> Mine(found[n].labels, daemon.account.owner)
    modifies daemon
    ensures daemon.Valid() && daemon.Grows()
    ensures daemon.account == old(daemon.account).(touched := daemon.account.touched)
    ensures daemon.d.networks == old(daemon.d).networks && daemon.d.volumes == old(daemon.d).volumes
    ensures daemon.quiet ==> daemon.d.nextID == old(daemon.d).nextID
    ensures daemon.quiet && ok && found == old(daemon.d).containers ==>
              daemon.d.containers == old(daemon.d).containers - which
  {
    ok := true;
    var rest := which;
    while rest != {}
      invariant rest <= which && daemon.Valid() && daemon.Grows()
      invariant daemon.account == old(daemon.account).(touched := daemon.account.touched)
      invariant daemon.d.networks == old(daemon.d).networks && daemon.d.volumes == old(daemon.d).volumes
      invariant StillLabelled(daemon.d, found) && (daemon.quiet ==> daemon.d.nextID == old(daemon.d).nextID)
      invariant daemon.quiet && ok && found == old(daemon.d).containers ==>
        daemon.d.containers == old(daemon.d).containers - (which - rest)
      decreases rest
    {
      var n :| n in rest;
      ghost var before := daemon.d;
      var removed := StopAndRemove(daemon, n, found[n]);
      rest := rest - {n};
      if daemon.quiet && ok && removed && found == old(daemon.d).containers {
        OneLess(found, before.containers, daemon.d.containers, which - rest, n);
      }
      ok := ok && removed;
    }
    assert which - rest == which;
  }

  lemma OneLess(
    all: map<string, Container>, before: map<string, Container>, now: map<string, Container>, gone: set<string>, n: string)
    requires n in gone && before == all - (gone - {n}) && now - {n} == before - {n} && n !in now
    ensures now == all - gone
  {
    assert now == now - {n};
  }

  /** The list filter: the assignment's labels and a service label. */
  predicate OfAssignment(l: Labels, owner: Owner) {
    l.service.Some? && Mine(l, owner)
  }

  predicate OfLifetime(l: Labels, owner: Owner) {
    OfAssignment(l, owner.(generation := None))
  }

  function ContainersOf(d: State, owner: Owner): set<string> {
    set n | n in d.containers && OfAssignment(d.containers[n].labels, owner)
  }

  /** Containers of another generation of the lifetime. */
  function Others(d: State, owner: Owner): set<string> {
    set n | n in d.containers && owner.generation.Some? && OfLifetime(d.containers[n].labels, owner)
            && d.containers[n].labels.generation != owner.generation
  }

  predicate OwnNetwork(l: Labels, owner: Owner) {
    l.project == owner.project && l.uid == owner.uid && (l.namespace == "" || l.namespace == owner.namespace)
  }

  predicate OwnVolume(l: Labels, owner: Owner) {
    l.project == owner.project && l.uid == owner.uid && l.namespace == owner.namespace
  }

  function VolumesOf(d: State, owner: Owner): set<string> {
    set v | v in d.volumes && OwnVolume(d.volumes[v], owner)
  }

  predicate HasNetwork(d: State, owner: Owner) {
    var n := NetworkName(owner.project);
    n in d.networks && OwnNetwork(d.networks[n], owner)
  }

  function NetworksLeft(d: State, owner: Owner): map<string, Labels> {
    if HasNetwork(d, owner) then d.networks - {NetworkName(owner.project)} else d.networks
  }

  /** What the daemon holds for `owner`: its containers, and once no other
      generation has any, the network and volumes. */
  datatype Holding = Holding(containers: set<string>, network: bool, volumes: set<string>)

  const NOTHING := Holding({}, false, {})

  function Held(d: State, owner: Owner): Holding {
    if Others(d, owner) != {} then Holding(ContainersOf(d, owner), false, {})
    else Holding(ContainersOf(d, owner), HasNetwork(d, owner), VolumesOf(d, owner))
  }

  /** What removing everything of `owner`'s comes to. */
  function Removed(d: State, owner: Owner): State {
    var left := d.(containers := d.containers - ContainersOf(d, owner));
    if Others(d, owner) != {} then left
    else
      left.(networks := NetworksLeft(d, owner),
      volumes := d.volumes - VolumesOf(d, owner))
  }

  /** What removal leaves is what the check that follows finds: nothing. */
  lemma RemovedHoldsNothing(d: State, owner: Owner)
    ensures Held(Removed(d, owner), owner) == NOTHING
  {
  }

  /** Two assignments of one lifetime. */
  predicate SameLifetime(a: Owner, b: Owner) {
    a.generation.Some? && b.generation.Some? && a.(generation := b.generation) == b
  }

  /** Removing two generations of a lifetime ends the same in either order, and
      its network and volumes are gone exactly when no third generation has a
      container left. */
  lemma OrderDoesNotMatter(d: State, a: Owner, b: Owner)
    requires SameLifetime(a, b)
    ensures Removed(Removed(d, a), b) == Removed(Removed(d, b), a)
    ensures var last := Removed(Removed(d, a), b);
            (forall n :: n in last.containers ==> !OfLifetime(last.containers[n].labels, a)) ==>
              !HasNetwork(last, a) && VolumesOf(last, a) == {}
    ensures var last := Removed(Removed(d, a), b);
            (exists n :: n in last.containers && OfLifetime(last.containers[n].labels, a)) ==>
              last.networks == d.networks && last.volumes == d.volumes
  {
    SharedGoWithTheLast(d, a, b);
    SharedGoWithTheLast(d, b, a);
    SameForBoth(d, a, b);
    var last := Removed(Removed(d, a), b);
    assert last.containers == Removed(Removed(d, b), a).containers;
    if Third(d, a, b) {
      var n :| n in d.containers && OfLifetime(d.containers[n].labels, a)
        && d.containers[n].labels.generation != a.generation && d.containers[n].labels.generation != b.generation;
      assert n in last.containers && OfLifetime(last.containers[n].labels, a);
    } else {
      assert VolumesOf(last, a) == {};
    }
  }

  /** A container of the lifetime that neither removal is for. */
  ghost predicate Third(d: State, a: Owner, b: Owner) {
    exists n :: n in d.containers && OfLifetime(d.containers[n].labels, a)
                && d.containers[n].labels.generation != a.generation && d.containers[n].labels.generation != b.generation
  }

  lemma SameForBoth(d: State, a: Owner, b: Owner)
    requires SameLifetime(a, b)
    ensures HasNetwork(d, a) == HasNetwork(d, b) && VolumesOf(d, a) == VolumesOf(d, b) && Third(d, a, b) == Third(d, b, a)
  {
  }

  lemma OthersAfterOne(d: State, a: Owner, b: Owner)
    requires SameLifetime(a, b)
    ensures Others(Removed(d, a), b) != {} <==> Third(d, a, b)
    ensures Third(d, a, b) ==> Others(d, a) != {}
    ensures ContainersOf(Removed(d, a), b) == ContainersOf(d, b) - ContainersOf(d, a)
  {
    if Third(d, a, b) {
      var n :| n in d.containers && OfLifetime(d.containers[n].labels, a)
        && d.containers[n].labels.generation != a.generation && d.containers[n].labels.generation != b.generation;
      assert n in Others(Removed(d, a), b) && n in Others(d, a);
    }
  }

  lemma SharedGoWithTheLast(d: State, a: Owner, b: Owner)
    requires SameLifetime(a, b)
    ensures var last := Removed(Removed(d, a), b);
            && last.nextID == d.nextID
            && last.containers == d.containers - ContainersOf(d, a) - ContainersOf(d, b)
            && last.networks == (if !Third(d, a, b) then NetworksLeft(d, a) else d.networks)
            && last.volumes == (if !Third(d, a, b) then d.volumes - VolumesOf(d, a) else d.volumes)
  {
    SameForBoth(d, a, b);
    OthersAfterOne(d, a, b);
  }

  /** Removing leaves every container of another UID or generation, and every
      network and volume of another UID, as it was. */
  lemma RemovalLeavesOthers(d: State, owner: Owner)
    ensures LeavesOthers(d, Removed(d, owner), owner)
  {
  }

  /** Whether another generation of the lifetime still has a container here. */
  method LifetimeHasContainers(daemon: Daemon, owner: Owner) returns (ok: bool, others: bool)
    requires daemon.Valid()
    modifies daemon
    ensures daemon.Valid() && daemon.Grows() && daemon.account == old(daemon.account)
    ensures Persists(old(daemon.d), daemon.d) && (daemon.quiet ==> daemon.d == old(daemon.d))
    ensures ok ==> others == (Others(daemon.d, owner) != {})
  {
    if owner.generation.None? {
      return true, false;
    }
    var found;
    ok, found := daemon.List();
    others := exists n :: n in found && OfLifetime(found[n].labels, owner) && found[n].labels.generation != owner.generation;
    if ok && others {
      var n :| n in found && OfLifetime(found[n].labels, owner) && found[n].labels.generation != owner.generation;
      assert n in Others(daemon.d, owner);
    }
  }

  method RemoveNetworkOf(daemon: Daemon, owner: Owner) returns (ok: bool)
    requires daemon.Valid() && daemon.account.owner == owner
    modifies daemon
    ensures daemon.Valid() && daemon.Grows()
    ensures daemon.account == old(daemon.account).(sharedRemoved := daemon.account.sharedRemoved)
    ensures daemon.d.volumes == old(daemon.d).volumes && SameContainers(old(daemon.d), daemon.d)
    ensures daemon.quiet ==> daemon.d.containers == old(daemon.d).containers && daemon.d.nextID == old(daemon.d).nextID
    ensures ok ==> daemon.d.networks == NetworksLeft(old(daemon.d), owner)
  {
    var n := NetworkName(owner.project);
    var found := daemon.LookAtNetwork(n);
    match found {
      case LookFailed => return false;
      case Missing => return true;
      case Present(labels) =>
        if !OwnNetwork(labels, owner) {
          return true;
        }
        var dropped := daemon.DropNetwork(n);
        return !dropped.Failed?;
    }
  }

  method RemoveVolumesOf(daemon: Daemon, owner: Owner) returns (ok: bool)
    requires daemon.Valid() && daemon.account.owner == owner
    modifies daemon
    ensures daemon.Valid() && daemon.Grows()
    ensures daemon.account == old(daemon.account).(sharedRemoved := daemon.account.sharedRemoved)
    ensures daemon.d.networks == old(daemon.d).networks
    ensures daemon.quiet ==> daemon.d.containers == old(daemon.d).containers && daemon.d.nextID == old(daemon.d).nextID
    ensures ok ==> daemon.d.volumes == old(daemon.d).volumes - VolumesOf(old(daemon.d), owner)
  {
    var found;
    ok, found := daemon.ListVolumes();
    if !ok {
      return;
    }
    var own := set v | v in found && OwnVolume(found[v], owner);
    var rest := own;
    while rest != {}
      invariant rest <= own && daemon.Valid() && daemon.Grows()
      invariant daemon.account == old(daemon.account).(sharedRemoved := daemon.account.sharedRemoved)
      invariant daemon.d.networks == old(daemon.d).networks
      invariant daemon.quiet ==> daemon.d.containers == old(daemon.d).containers && daemon.d.nextID == old(daemon.d).nextID
      invariant forall v :: v in daemon.d.volumes ==> v in found && daemon.d.volumes[v] == found[v]
      invariant ok ==> daemon.d.volumes == found - (own - rest)
      decreases rest
    {
      var v :| v in rest;
      var dropped := daemon.DropVolume(v);
      rest := rest - {v};
      ok := ok && !dropped.Failed?;
    }
    assert own - rest == VolumesOf(old(daemon.d), owner);
  }

  method RemoveShared(daemon: Daemon, owner: Owner) returns (ok: bool)
    requires daemon.Valid() && daemon.account.owner == owner
    modifies daemon
    ensures daemon.Valid() && daemon.Grows()
    ensures daemon.account == old(daemon.account).(sharedRemoved := daemon.account.sharedRemoved)
    ensures daemon.quiet ==> daemon.d.containers == old(daemon.d).containers && daemon.d.nextID == old(daemon.d).nextID
    ensures ok ==> daemon.d.networks == NetworksLeft(old(daemon.d), owner)
    ensures ok ==> daemon.d.volumes == old(daemon.d).volumes - VolumesOf(old(daemon.d), owner)
  {
    var network := RemoveNetworkOf(daemon, owner);
    var volumes := RemoveVolumesOf(daemon, owner);
    ok := network && volumes;
  }

  /** Removes exactly what this daemon holds for one assignment, or for a whole
      lifetime. Without a UID there is nothing to match by. */
  method RemoveAssignment(daemon: Daemon, owner: Owner) returns (ok: bool)
    requires daemon.Valid()
    modifies daemon
    ensures daemon.Valid() && daemon.since == |old(daemon.effects)| && old(daemon.effects) <= daemon.effects
    ensures daemon.account.owner == owner && !daemon.account.volumesMade
    ensures owner.uid == "" ==> !ok && daemon.d == old(daemon.d)
    ensures daemon.quiet && ok ==> daemon.d == Removed(old(daemon.d), owner)
  {
    daemon.Begin(owner);
    if owner.uid == "" {
      return false;
    }
    var found;
    ok, found := daemon.List();
    if !ok {
      return;
    }
    ghost var start := daemon.d;
    ok := RemoveEach(daemon, found, set n | n in found && OfAssignment(found[n].labels, owner));
    if !ok {
      return;
    }
    var others;
    ok, others := LifetimeHasContainers(daemon, owner);
    assert daemon.quiet ==> Others(daemon.d, owner) == Others(start, owner);
    if !ok || others {
      return;
    }
    ok := RemoveShared(daemon, owner);
  }

  method SharedRemaining(daemon: Daemon, owner: Owner) returns (ok: bool, network: bool, volumes: set<string>)
    requires daemon.Valid()
    modifies daemon
    ensures daemon.Valid() && daemon.Grows() && daemon.account == old(daemon.account)
    ensures Persists(old(daemon.d), daemon.d) && (daemon.quiet ==> daemon.d == old(daemon.d))
    ensures ok ==> network == HasNetwork(daemon.d, owner) && volumes == VolumesOf(daemon.d, owner)
  {
    volumes := {};
    var found := daemon.LookAtNetwork(NetworkName(owner.project));
    network := found.Present? && OwnNetwork(found.labels, owner);
    if found.LookFailed? {
      return false, network, volumes;
    }
    var labels;
    ok, labels := daemon.ListVolumes();
    volumes := set v | v in labels && OwnVolume(labels[v], owner);
  }

  /** What the daemon still holds for the assignment, by the rule removal goes by. */
  method AssignmentRemaining(daemon: Daemon, owner: Owner) returns (ok: bool, left: Holding)
    requires daemon.Valid()
    modifies daemon
    ensures daemon.Valid() && daemon.Grows() && daemon.account == old(daemon.account)
    ensures Persists(old(daemon.d), daemon.d) && (daemon.quiet ==> daemon.d == old(daemon.d))
    ensures owner.uid == "" ==> !ok
    ensures daemon.quiet && ok ==> left == Held(daemon.d, owner)
  {
    left := NOTHING;
    if owner.uid == "" {
      return false, left;
    }
    var found, others;
    ok, found := daemon.List();
    if !ok {
      return;
    }
    left := left.(containers := set n | n in found && OfAssignment(found[n].labels, owner));
    ok, others := LifetimeHasContainers(daemon, owner);
    if !ok || others {
      return;
    }
    var network, volumes;
    ok, network, volumes := SharedRemaining(daemon, owner);
    left := Holding(left.containers, network, volumes);
  }

  /** On a quiet daemon, a removal that reports success is confirmed by the check
      that follows it, whenever that check can be made. */
  method RemoveAndConfirm(daemon: Daemon, owner: Owner) returns (removed: bool, answered: bool, confirmed: bool)
    requires daemon.Valid() && daemon.quiet
    modifies daemon
    ensures daemon.Valid() && (removed ==> daemon.d == Removed(old(daemon.d), owner))
    ensures confirmed ==> answered && Held(daemon.d, owner) == NOTHING
    ensures removed && answered ==> confirmed
  {
    removed := RemoveAssignment(daemon, owner);
    var left;
    answered, left := AssignmentRemaining(daemon, owner);
    if removed {
      RemovedHoldsNothing(old(daemon.d), owner);
    }
    confirmed := answered && left == NOTHING;
  }
}
