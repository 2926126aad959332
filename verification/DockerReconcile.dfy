/** Bringing a Project up on a Node, and undoing an attempt that failed. */
module DockerReconcile {
  import opened Docker
  import opened DockerSpec
  import opened DockerEnsure
  import opened DockerUpdate
  import Removal = DockerRemoval
  import Text

  /** Every service container that exists is this assignment's, looked at before
      anything is changed. */
  method CheckExistingOwnership(daemon: Daemon, p: Project) returns (r: Result)
    requires daemon.Valid()
    modifies daemon
    ensures daemon.Valid() && daemon.Grows() && daemon.account == old(daemon.account)
    ensures Persists(old(daemon.d), daemon.d) && (daemon.quiet ==> daemon.d == old(daemon.d))
    ensures daemon.quiet && r.Ok? ==> forall s :: s in p.spec.services ==> OursIfThere(daemon.d, p, s)
    ensures daemon.quiet && r.NotOwned? ==> exists s :: s in p.spec.services && !OursIfThere(daemon.d, p, s)
  {
    for i := 0 to |p.spec.services|
      invariant daemon.Valid() && daemon.Grows() && daemon.account == old(daemon.account)
      invariant Persists(old(daemon.d), daemon.d) && (daemon.quiet ==> daemon.d == old(daemon.d))
      invariant daemon.quiet ==> forall s :: s in p.spec.services[..i] ==> OursIfThere(daemon.d, p, s)
    {
      var svc := p.spec.services[i];
      var found := daemon.Inspect(ContainerName(p.name, svc.name));
      if found.InspectFailed? {
        return Error;
      }
      if found.Found? && !Owned(found.container.labels, OwnerOf(p), svc.name) {
        assert svc in p.spec.services && (daemon.quiet ==> !OursIfThere(daemon.d, p, svc));
        return NotOwned;
      }
    }
    return Ok;
  }

  /** The networks and volumes a rollback may take: those carrying its UID. */
  predicate RollbackNetwork(l: Labels, p: Project) {
    l.project == p.name && l.uid == p.uid
  }

  method RollbackNetworkOf(daemon: Daemon, p: Project) returns (ok: bool)
    requires daemon.Valid() && daemon.account.owner == OwnerOf(p)
    modifies daemon
    ensures daemon.Valid() && daemon.Grows()
    ensures daemon.account == old(daemon.account).(sharedRemoved := daemon.account.sharedRemoved)
    ensures daemon.d.volumes == old(daemon.d).volumes
    ensures daemon.quiet ==> daemon.d.containers == old(daemon.d).containers
    ensures ok ==> var n := NetworkName(p.name); n in daemon.d.networks ==> !RollbackNetwork(daemon.d.networks[n], p)
  {
    var n := NetworkName(p.name);
    var found := daemon.LookAtNetwork(n);
    match found {
      case LookFailed => return false;
      case Missing => return true;
      case Present(labels) =>
        if !RollbackNetwork(labels, p) {
          return true;
        }
        var dropped := daemon.DropNetwork(n);
        return !dropped.Failed?;
    }
  }

  /** No declared volume of this UID is left. */
  ghost predicate NoVolumeLeft(d: State, p: Project, volumes: seq<Volume>) {
    forall v :: v in volumes && !v.kind.Unknown? && VolumeName(p.name, v.name) in d.volumes ==>
      d.volumes[VolumeName(p.name, v.name)].uid != p.uid
  }

  method RollbackVolumes(daemon: Daemon, p: Project) returns (ok: bool)
    requires daemon.Valid() && daemon.account.owner == OwnerOf(p)
    modifies daemon
    ensures daemon.Valid() && daemon.Grows()
    ensures daemon.account == old(daemon.account).(sharedRemoved := daemon.account.sharedRemoved)
    ensures daemon.d.networks == old(daemon.d).networks
    ensures daemon.quiet ==> daemon.d.containers == old(daemon.d).containers
    ensures ok ==> NoVolumeLeft(daemon.d, p, p.spec.volumes)
  {
    ok := true;
    var volumes := p.spec.volumes;
    for i := 0 to |volumes|
      invariant daemon.Valid() && daemon.Grows()
      invariant daemon.account == old(daemon.account).(sharedRemoved := daemon.account.sharedRemoved)
      invariant daemon.d.networks == old(daemon.d).networks
      invariant daemon.quiet ==> daemon.d.containers == old(daemon.d).containers
      invariant ok ==> NoVolumeLeft(daemon.d, p, volumes[..i])
    {
      assert volumes[..i + 1] == volumes[..i] + [volumes[i]];
      if !volumes[i].kind.Unknown? {
        var v := VolumeName(p.name, volumes[i].name);
        var found := daemon.LookAtVolume(v);
        if found.LookFailed? {
          ok := false;
        } else if found.Present? && found.labels.uid == p.uid {
          var dropped := daemon.DropVolume(v);
          ok := ok && !dropped.Failed?;
        }
      }
    }
    assert volumes[..|volumes|] == volumes;
  }

  /** Nothing the assignment had is left. */
  ghost predicate RolledBack(d: State, p: Project) {
    && Removal.ContainersOf(d, OwnerOf(p)) == {}
    && (NetworkName(p.name) in d.networks ==> !RollbackNetwork(d.networks[NetworkName(p.name)], p))
    && NoVolumeLeft(d, p, p.spec.volumes)
  }

  /** Undoes a failed reconcile: this assignment's containers, and the network and
      volumes that carry its UID. Errors are logged and not returned. */
  method Rollback(daemon: Daemon, p: Project) returns (ok: bool)
    requires daemon.Valid() && daemon.account.owner == OwnerOf(p)
    modifies daemon
    ensures daemon.Valid() && daemon.Grows() && daemon.account.volumesMade == old(daemon.account).volumesMade
    ensures daemon.quiet && ok ==> RolledBack(daemon.d, p)
  {
    var found;
    ok, found := daemon.List();
    if !ok {
      return;
    }
    ghost var start := daemon.d;
    var containers := Removal.RemoveEach(daemon, found, set n | n in found && Removal.OfAssignment(found[n].labels, OwnerOf(p)));
    assert daemon.quiet && containers ==> Removal.ContainersOf(daemon.d, OwnerOf(p)) == {};
    var network := RollbackNetworkOf(daemon, p);
    var volumes := RollbackVolumes(daemon, p);
    ok := containers && network && volumes;
  }

  /** Undoes only the containers this attempt created, each looked at again.
      Errors are logged; without any, none of them is this assignment's. */
  method RemoveCreated(daemon: Daemon, p: Project, names: seq<string>) returns (ok: bool)
    requires daemon.Valid() && daemon.account.owner == OwnerOf(p)
    modifies daemon
    ensures daemon.Valid() && daemon.Grows()
    ensures daemon.account == old(daemon.account).(touched := daemon.account.touched)
    ensures daemon.d.networks == old(daemon.d).networks && daemon.d.volumes == old(daemon.d).volumes
    ensures daemon.quiet && ok ==> NoneOurs(daemon.d, p, names)
    ensures daemon.quiet ==> LosesOnly(old(daemon.d), daemon.d, names)
  {
    ok := true;
    for i := 0 to |names|
      invariant daemon.Valid() && daemon.Grows()
      invariant daemon.account == old(daemon.account).(touched := daemon.account.touched)
      invariant daemon.d.networks == old(daemon.d).networks && daemon.d.volumes == old(daemon.d).volumes
      invariant daemon.quiet && ok ==> NoneOurs(daemon.d, p, names[..i])
      invariant daemon.quiet ==> LosesOnly(old(daemon.d), daemon.d, names)
    {
      var removed := RemoveIfOurs(daemon, p, names[i]);
      ok := ok && removed;
      assert names[..i + 1] == names[..i] + [names[i]];
    }
    assert names[..|names|] == names;
  }

  predicate NoneOurs(d: State, p: Project, names: seq<string>) {
    forall n :: n in names && n in d.containers ==> !Mine(d.containers[n].labels, OwnerOf(p))
  }

  /** Some of `names` are gone, and nothing else. */
  predicate LosesOnly(a: State, b: State, names: seq<string>) {
    && (forall n :: n in b.containers ==> n in a.containers && b.containers[n] == a.containers[n])
    && (forall n :: n in a.containers && n !in names ==> n in b.containers)
  }

  method RemoveIfOurs(daemon: Daemon, p: Project, name: string) returns (ok: bool)
    requires daemon.Valid() && daemon.account.owner == OwnerOf(p)
    modifies daemon
    ensures daemon.Valid() && daemon.Grows()
    ensures daemon.account == old(daemon.account).(touched := daemon.account.touched)
    ensures daemon.d.networks == old(daemon.d).networks && daemon.d.volumes == old(daemon.d).volumes
    ensures daemon.quiet && ok ==> NoneOurs(daemon.d, p, [name])
    ensures daemon.quiet ==> LosesOnly(old(daemon.d), daemon.d, [name])
  {
    var found := daemon.Inspect(name);
    if found.InspectFailed? {
      return false;
    }
    ok := true;
    if found.Found? && Mine(found.container.labels, OwnerOf(p)) {
      daemon.Touch(ServiceOf(found.container.labels));
      var removed := daemon.Remove(name, found.container.id, true);
      ok := !removed.Failed?;
    }
  }

  /** Gets the next service's container running, after those of `before` were created,
      or undoes: only what was created, if this one is another assignment's, and
      otherwise everything. */
  method EnsureNext(daemon: Daemon, p: Project, svc: Service, before: seq<string>)
    returns (r: Result, undone: bool, created: seq<string>)
    requires daemon.Valid() && daemon.account.owner == OwnerOf(p) && !daemon.account.sharedRemoved
    modifies daemon
    ensures daemon.Valid() && daemon.Grows() && daemon.account.owner == OwnerOf(p)
    ensures r.Ok? || r.NotOwned? ==> !daemon.account.sharedRemoved && !undone
    ensures daemon.quiet && undone ==> RolledBack(daemon.d, p)
    ensures r.Ok? ==> daemon.d.networks == old(daemon.d).networks && Keeps(old(daemon.d).volumes, daemon.d.volumes)
    ensures r.Ok? ==> Serves(daemon.d, p, svc) && (daemon.quiet ==> OnlyOne(old(daemon.d), daemon.d, p, svc))
  {
    var made;
    undone := false;
    r, made := EnsureContainerPulled(daemon, p, svc, false);
    created := before + if made then [ContainerName(p.name, svc.name)] else [];
    if r.NotOwned? {
      var removed := RemoveCreated(daemon, p, created);
    } else if !r.Ok? {
      undone := Rollback(daemon, p);
    }
  }

  /** Every service container exists and runs, or what was done about it. */
  method EnsureContainers(daemon: Daemon, p: Project) returns (r: Result, undone: bool)
    requires daemon.Valid() && daemon.account.owner == OwnerOf(p) && !daemon.account.sharedRemoved
    modifies daemon
    ensures daemon.Valid() && daemon.Grows()
    ensures r.Ok? || r.NotOwned? ==> !daemon.account.sharedRemoved && !undone
    ensures daemon.quiet && undone ==> RolledBack(daemon.d, p)
    ensures r.Ok? ==> daemon.d.networks == old(daemon.d).networks && Keeps(old(daemon.d).volumes, daemon.d.volumes)
    ensures daemon.quiet && r.Ok? && DistinctServices(p) ==> forall s :: s in p.spec.services ==> Serves(daemon.d, p, s)
  {
    var services := p.spec.services;
    ghost var names := set s | s in services :: ContainerName(p.name, s.name);
    var created := [];
    r, undone := Ok, false;
    for i := 0 to |services|
      invariant daemon.Valid() && daemon.Grows() && daemon.account.owner == OwnerOf(p) && !daemon.account.sharedRemoved
      invariant daemon.d.networks == old(daemon.d).networks && Keeps(old(daemon.d).volumes, daemon.d.volumes)
      invariant daemon.quiet && DistinctServices(p) ==> forall k :: 0 <= k < i ==> Serves(daemon.d, p, services[k])
      invariant r.Ok? && !undone
    {
      ghost var before := daemon.d;
      r, undone, created := EnsureNext(daemon, p, services[i], created);
      if !r.Ok? {
        return;
      }
      if daemon.quiet {
        OthersKeepTheirBuild(before, daemon.d, p, services[i], services[..i], names);
      }
    }
  }

  /** Brings the Project up. Whatever the outcome, `account` covers every effect
      of the call, so each of them keeps to the assignment's own; and when a
      container turns out to be another assignment's, no network or volume has
      been removed. `undone` says it was rolled back and every call of that worked. */
  method ReconcileProject(daemon: Daemon, p: Project) returns (r: Result, undone: bool)
    requires daemon.Valid()
    modifies daemon
    ensures daemon.Valid() && daemon.since == |old(daemon.effects)| && old(daemon.effects) <= daemon.effects
    ensures daemon.account.owner == OwnerOf(p)
    ensures r.Ok? || r.NotOwned? ==> !daemon.account.sharedRemoved
    ensures daemon.quiet && (exists s :: s in p.spec.services && !OursIfThere(old(daemon.d), p, s)) ==>
              !r.Ok? && daemon.d == old(daemon.d)
    ensures daemon.quiet && r.Ok? && DistinctServices(p) ==> Converged(daemon.d, p)
    ensures r.Ok? ==> NetworkReady(daemon.d, p) && VolumesReady(daemon.d, p) && !undone
    ensures daemon.quiet && undone ==> RolledBack(daemon.d, p)
  {
    daemon.Begin(OwnerOf(p));
    undone := false;
    r := CheckExistingOwnership(daemon, p);
    if !r.Ok? {
      return;
    }
    r := EnsureNetwork(daemon, p);
    if !r.Ok? {
      return;
    }
    r := EnsureVolumes(daemon, p);
    if !r.Ok? {
      undone := Rollback(daemon, p);
      return;
    }
    r, undone := EnsureContainers(daemon, p);
    if !r.Ok? {
      return;
    }
    r := RemoveUnlisted(daemon, p);
  }

  /** Takes away what an earlier spec of this same assignment still has here. */
  method RemoveUnlisted(daemon: Daemon, p: Project) returns (r: Result)
    requires daemon.Valid() && daemon.account.owner == OwnerOf(p)
    modifies daemon
    ensures daemon.Valid() && daemon.Grows()
    ensures daemon.account.sharedRemoved == old(daemon.account).sharedRemoved
    ensures r.Ok? ==> daemon.d.networks == old(daemon.d).networks && daemon.d.volumes == old(daemon.d).volumes
    ensures daemon.quiet && r.Ok? && (forall s :: s in p.spec.services ==> Built(old(daemon.d), p, s)) ==>
              Converged(daemon.d, p)
  {
    var ok, removed := UnlistedContainers(daemon, p);
    if !ok {
      return Error;
    }
    r := RemoveListed(daemon, p, removed);
    if daemon.quiet && r.Ok? && forall s :: s in p.spec.services ==> Built(old(daemon.d), p, s) {
      NothingUnlistedIsConverged(old(daemon.d), daemon.d, p, removed);
    }
  }

  lemma NothingUnlistedIsConverged(before: State, now: State, p: Project, removed: seq<Stale>)
    requires IsListing(before.containers, p, removed)
    requires forall s :: s in p.spec.services ==> Built(before, p, s)
    requires now.containers == before.containers - Text.Elements(Names(removed))
    ensures Converged(now, p)
  {
  }
}
