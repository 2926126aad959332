/** The steps reconcile, update and recovery share: make what is missing, adopt
    what is this assignment's, refuse the rest. */
module DockerEnsure {
  import opened Docker
  import opened DockerSpec

  datatype Result = Ok | NotOwned | PullFailed | VolumeUnavailable | Error

  /** A network or volume found under its name may be used by `p`. */
  predicate Adoptable(l: Labels, p: Project) {
    l.project == p.name && (l.namespace == "" || l.namespace == p.namespace) && (p.uid == "" || l.uid == p.uid)
  }

  function SharedLabels(p: Project): Labels {
    Labels(p.name, None, p.namespace, p.uid, None, NoHash)
  }

  function LabelsFor(p: Project, svc: Service): Labels {
    Labels(p.name, Some(svc.name), p.namespace, p.uid, Some(p.generation), ServiceSpecHash(svc, p.spec))
  }

  /** The container of `svc` is this assignment's and built from the spec. */
  predicate Built(d: State, p: Project, svc: Service) {
    var n := ContainerName(p.name, svc.name);
    && n in d.containers && Owned(d.containers[n].labels, OwnerOf(p), svc.name)
    && d.containers[n].labels.specHash == ServiceSpecHash(svc, p.spec)
  }

  /** ... and running. */
  predicate Serves(d: State, p: Project, svc: Service) {
    Built(d, p, svc) && Up(d.containers[ContainerName(p.name, svc.name)].status)
  }

  predicate NetworkReady(d: State, p: Project) {
    var n := NetworkName(p.name);
    n in d.networks && Adoptable(d.networks[n], p)
  }

  predicate VolumeReady(d: State, p: Project, volume: string) {
    var v := VolumeName(p.name, volume);
    v in d.volumes && Adoptable(d.volumes[v], p)
  }

  /** Every Ephemeral volume of the spec is there and may be used. */
  predicate VolumesReady(d: State, p: Project) {
    forall v :: v in p.spec.volumes && v.kind.Ephemeral? ==> VolumeReady(d, p, v.name)
  }

  /** Nothing there is lost. */
  ghost predicate Keeps(a: map<string, Labels>, b: map<string, Labels>) {
    forall n :: n in a ==> n in b && b[n] == a[n]
  }

  /** At most containers of `svc` were touched, and nothing shared was removed. */
  predicate Moderate(a: Account, b: Account, svc: Service) {
    b.owner == a.owner && b.touched <= a.touched + {svc.name} && b.sharedRemoved == a.sharedRemoved
  }

  /** No container but that of `svc` is different. */
  predicate OnlyOne(a: State, b: State, p: Project, svc: Service) {
    var n := ContainerName(p.name, svc.name);
    a.containers - {n} == b.containers - {n}
  }

  predicate MakesNoVolume(a: Account, b: Account) {
    b.volumesMade == a.volumesMade && b.volumesByStart == a.volumesByStart
  }

  method PullImage(image: string) returns (r: Result)
    ensures r.Ok? || r.PullFailed?
  {
    var pulled: bool := *;
    return if pulled then Ok else PullFailed;
  }

  method EnsureNetwork(daemon: Daemon, p: Project) returns (r: Result)
    requires daemon.Valid() && daemon.account.owner == OwnerOf(p)
    modifies daemon
    ensures daemon.Valid() && daemon.Grows() && daemon.account == old(daemon.account)
    ensures daemon.d.volumes == old(daemon.d).volumes && Keeps(old(daemon.d).networks, daemon.d.networks)
    ensures daemon.quiet ==> daemon.d.containers == old(daemon.d).containers
    ensures r.Ok? ==> NetworkReady(daemon.d, p)
    ensures r.Ok? || r.Error?
  {
    var n := NetworkName(p.name);
    var found := daemon.LookAtNetwork(n);
    match found {
      case LookFailed => return Error;
      case Present(labels) => return if Adoptable(labels, p) then Ok else Error;
      case Missing =>
        var made := daemon.MakeNetwork(n, SharedLabels(p));
        return if made.Done? then Ok else Error;
    }
  }

  method EnsureEphemeralVolume(daemon: Daemon, p: Project, volume: string) returns (r: Result)
    requires daemon.Valid() && daemon.account.owner == OwnerOf(p)
    modifies daemon
    ensures daemon.Valid() && daemon.Grows()
    ensures daemon.account == old(daemon.account).(volumesMade := daemon.account.volumesMade)
    ensures daemon.d.networks == old(daemon.d).networks && Keeps(old(daemon.d).volumes, daemon.d.volumes)
    ensures daemon.quiet ==> daemon.d.containers == old(daemon.d).containers
    ensures r.Ok? ==> VolumeReady(daemon.d, p, volume)
    ensures r.Ok? || r.Error?
  {
    var v := VolumeName(p.name, volume);
    var found := daemon.LookAtVolume(v);
    match found {
      case LookFailed => return Error;
      case Present(labels) => return if Adoptable(labels, p) then Ok else Error;
      case Missing =>
        var made := daemon.MakeVolume(v, SharedLabels(p));
        return if made.Done? then Ok else Error;
    }
  }

  method EnsureVolumes(daemon: Daemon, p: Project) returns (r: Result)
    requires daemon.Valid() && daemon.account.owner == OwnerOf(p)
    modifies daemon
    ensures daemon.Valid() && daemon.Grows()
    ensures daemon.account == old(daemon.account).(volumesMade := daemon.account.volumesMade)
    ensures daemon.d.networks == old(daemon.d).networks && Keeps(old(daemon.d).volumes, daemon.d.volumes)
    ensures daemon.quiet ==> daemon.d.containers == old(daemon.d).containers
    ensures r.Ok? ==> VolumesReady(daemon.d, p)
    ensures r.Ok? ==> forall v :: v in p.spec.volumes ==> !v.kind.Unknown?
    ensures r.Ok? || r.Error?
  {
    for i := 0 to |p.spec.volumes|
      invariant daemon.Valid() && daemon.Grows()
      invariant daemon.account == old(daemon.account).(volumesMade := daemon.account.volumesMade)
      invariant daemon.d.networks == old(daemon.d).networks && Keeps(old(daemon.d).volumes, daemon.d.volumes)
      invariant daemon.quiet ==> daemon.d.containers == old(daemon.d).containers
      invariant forall v :: v in p.spec.volumes[..i] ==> !v.kind.Unknown? && (v.kind.Ephemeral? ==> VolumeReady(daemon.d, p, v.name))
    {
      var volume := p.spec.volumes[i];
      match volume.kind {
        case Managed =>
          var ready: bool := *;
          if !ready {
            return Error;
          }
        case Ephemeral =>
          r := EnsureEphemeralVolume(daemon, p, volume.name);
          if !r.Ok? {
            return;
          }
        case Unknown(_) => return Error;
      }
      assert p.spec.volumes[..i + 1] == p.spec.volumes[..i] + [volume];
    }
    return Ok;
  }

  method StopThenRemove(daemon: Daemon, name: string, c: Container) returns (r: Result)
    requires daemon.Valid() && name in daemon.d.containers && daemon.d.containers[name] == c
    requires Mine(c.labels, daemon.account.owner)
    modifies daemon
    ensures daemon.Valid() && daemon.Grows()
    ensures daemon.account == old(daemon.account).(touched := old(daemon.account).touched + {ServiceOf(c.labels)})
    ensures Persists(old(daemon.d), daemon.d)
    ensures daemon.quiet && r.Ok? ==> name !in daemon.d.containers
    ensures daemon.quiet ==> daemon.d.containers - {name} == old(daemon.d).containers - {name}
    ensures r.Ok? || r.Error?
  {
    daemon.Touch(ServiceOf(c.labels));
    var stopped := daemon.Stop(name, c.id);
    if stopped.Failed? {
      return Error;
    }
    var removed := daemon.Remove(name, c.id, false);
    return if removed.Failed? then Error else Ok;
  }

  /** Frees a name this assignment's container holds. What holds it is looked up
      again: another assignment's container stays, and an empty name is success. */
  method RemoveOwnedContainer(daemon: Daemon, name: string, p: Project, service: string) returns (r: Result)
    requires daemon.Valid() && daemon.account.owner == OwnerOf(p)
    modifies daemon
    ensures daemon.Valid() && daemon.Grows()
    ensures daemon.account == old(daemon.account).(touched := daemon.account.touched)
    ensures daemon.account.touched <= old(daemon.account).touched + {service}
    ensures Persists(old(daemon.d), daemon.d)
    ensures daemon.quiet && r.Ok? ==> daemon.d.containers == old(daemon.d).containers - {name}
    ensures daemon.quiet ==> daemon.d.containers - {name} == old(daemon.d).containers - {name}
    ensures r.Ok? || r.NotOwned? || r.Error?
  {
    var found := daemon.Inspect(name);
    match found {
      case InspectFailed => return Error;
      case NotFound => return Ok;
      case Found(c) =>
        if !Owned(c.labels, OwnerOf(p), service) {
          return NotOwned;
        }
        r := StopThenRemove(daemon, name, c);
    }
  }

  /** Starts the container of `svc` that was found, built from this spec. */
  method StartFound(daemon: Daemon, p: Project, svc: Service, c: Container) returns (r: Result)
    requires daemon.Valid() && daemon.account.owner == OwnerOf(p)
    requires c.id < daemon.d.nextID && Owned(c.labels, OwnerOf(p), svc.name) && c.labels.specHash == ServiceSpecHash(svc, p.spec)
    requires var n := ContainerName(p.name, svc.name); n in daemon.d.containers && daemon.d.containers[n] == c
    modifies daemon
    ensures daemon.Valid() && daemon.Grows() && Moderate(old(daemon.account), daemon.account, svc)
    ensures daemon.d.networks == old(daemon.d).networks && Keeps(old(daemon.d).volumes, daemon.d.volumes)
    ensures Bound(LabelsFor(p, svc)) <= old(daemon.d).volumes.Keys ==> MakesNoVolume(old(daemon.account), daemon.account)
    ensures daemon.quiet ==> OnlyOne(old(daemon.d), daemon.d, p, svc)
    ensures r.Ok? ==> Serves(daemon.d, p, svc)
    ensures r.Ok? || r.Error?
  {
    daemon.Touch(svc.name);
    var n := ContainerName(p.name, svc.name);
    assert Bound(c.labels) == Bound(LabelsFor(p, svc));
    var started := daemon.Start(n, c.id);
    return if started.Done? then Ok else Error;
  }

  method CreateAndStart(daemon: Daemon, name: string, labels: Labels) returns (r: Result)
    requires daemon.Valid() && Mine(labels, daemon.account.owner)
    modifies daemon
    ensures daemon.Valid() && daemon.Grows() && daemon.account.owner == old(daemon.account).owner
    ensures daemon.account.touched == old(daemon.account).touched + {ServiceOf(labels)}
    ensures daemon.account.sharedRemoved == old(daemon.account).sharedRemoved
    ensures daemon.d.networks == old(daemon.d).networks && Keeps(old(daemon.d).volumes, daemon.d.volumes)
    ensures Bound(labels) <= old(daemon.d).volumes.Keys ==> MakesNoVolume(old(daemon.account), daemon.account)
    ensures daemon.quiet ==> daemon.d.containers - {name} == old(daemon.d).containers - {name}
    ensures r.Ok? ==> name in daemon.d.containers && daemon.d.containers[name].labels == labels && Up(daemon.d.containers[name].status)
    ensures r.Ok? || r.Error?
  {
    daemon.Touch(ServiceOf(labels));
    var created, id := daemon.Create(name, labels);
    if !created.Done? {
      return Error;
    }
    var started := daemon.Start(name, id);
    return if started.Done? then Ok else Error;
  }

  /** Creates the container of `svc` and starts it, once its mounts resolve. */
  method Build(daemon: Daemon, p: Project, svc: Service) returns (r: Result)
    requires daemon.Valid() && daemon.account.owner == OwnerOf(p)
    modifies daemon
    ensures daemon.Valid() && daemon.Grows() && Moderate(old(daemon.account), daemon.account, svc)
    ensures daemon.d.networks == old(daemon.d).networks && Keeps(old(daemon.d).volumes, daemon.d.volumes)
    ensures Bound(LabelsFor(p, svc)) <= old(daemon.d).volumes.Keys ==> MakesNoVolume(old(daemon.account), daemon.account)
    ensures daemon.quiet ==> OnlyOne(old(daemon.d), daemon.d, p, svc)
    ensures r.Ok? ==> Serves(daemon.d, p, svc)
    ensures r.Ok? || r.Error?
  {
    var derived: bool := *;
    if !derived || exists m :: m in svc.mounts && KindOf(p.spec.volumes, m.name).Unknown? {
      return Error;
    }
    r := CreateAndStart(daemon, ContainerName(p.name, svc.name), LabelsFor(p, svc));
  }

  /** Removes the container of `svc` that was built from another spec, after the
      new image has been pulled, and creates a new one. */
  method Replace(daemon: Daemon, p: Project, svc: Service, pulled: bool) returns (r: Result)
    requires daemon.Valid() && daemon.account.owner == OwnerOf(p)
    modifies daemon
    ensures daemon.Valid() && daemon.Grows() && Moderate(old(daemon.account), daemon.account, svc)
    ensures daemon.d.networks == old(daemon.d).networks && Keeps(old(daemon.d).volumes, daemon.d.volumes)
    ensures Bound(LabelsFor(p, svc)) <= old(daemon.d).volumes.Keys ==> MakesNoVolume(old(daemon.account), daemon.account)
    ensures daemon.quiet ==> OnlyOne(old(daemon.d), daemon.d, p, svc)
    ensures r.Ok? ==> Serves(daemon.d, p, svc)
    ensures pulled ==> !r.PullFailed?
    ensures !r.VolumeUnavailable?
  {
    if !pulled {
      r := PullImage(svc.image);
      if !r.Ok? {
        return;
      }
    }
    r := RemoveOwnedContainer(daemon, ContainerName(p.name, svc.name), p, svc.name);
    if r.Ok? {
      r := Build(daemon, p, svc);
    }
  }

  /** Creates and starts the container of `svc`, unless the one of this assignment
      is running already. `made` says it was created here. */
  method EnsureContainerPulled(daemon: Daemon, p: Project, svc: Service, pulled: bool) returns (r: Result, made: bool)
    requires daemon.Valid() && daemon.account.owner == OwnerOf(p)
    modifies daemon
    ensures daemon.Valid() && daemon.Grows() && Moderate(old(daemon.account), daemon.account, svc)
    ensures daemon.d.networks == old(daemon.d).networks && Keeps(old(daemon.d).volumes, daemon.d.volumes)
    ensures Bound(LabelsFor(p, svc)) <= old(daemon.d).volumes.Keys ==> MakesNoVolume(old(daemon.account), daemon.account)
    ensures daemon.quiet ==> OnlyOne(old(daemon.d), daemon.d, p, svc)
    ensures r.Ok? ==> Serves(daemon.d, p, svc)
    ensures made ==> r.Ok?
    ensures pulled ==> !r.PullFailed?
    ensures !r.VolumeUnavailable?
  {
    made := false;
    var found := daemon.Inspect(ContainerName(p.name, svc.name));
    match found {
      case InspectFailed => return Error, false;
      case NotFound =>
        if !pulled {
          r := PullImage(svc.image);
          if !r.Ok? {
            return;
          }
        }
        r := Build(daemon, p, svc);
        made := r.Ok?;
      case Found(c) =>
        if !Owned(c.labels, OwnerOf(p), svc.name) {
          return NotOwned, false;
        }
        if c.labels.specHash == ServiceSpecHash(svc, p.spec) {
          if Up(c.status) {
            return Ok, false;
          }
          r := StartFound(daemon, p, svc, c);
        } else {
          r := Replace(daemon, p, svc, pulled);
          made := r.Ok?;
        }
    }
  }
}
