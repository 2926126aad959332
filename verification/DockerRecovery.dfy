/** Restarting the broken services of a Project that still serves. */
module DockerRecovery {
  import opened Docker
  import opened DockerSpec
  import opened DockerEnsure
  import opened DockerUpdate

  /** The named services, in spec order. */
  function TargetsIn(services: seq<Service>, names: set<string>): (r: seq<Service>)
    ensures forall s :: s in r <==> s in services && s.name in names
  {
    if services == [] then []
    else
      var last := services[|services| - 1];
      TargetsIn(services[..|services| - 1], names) + if last.name in names then [last] else []
  }

  /** Every Docker volume `svc` mounts is there and may be used. */
  predicate MountsReady(d: State, p: Project, svc: Service) {
    forall m :: m in svc.mounts && KindOf(p.spec.volumes, m.name).Ephemeral? ==> VolumeReady(d, p, m.name)
  }

  /** What the preflight asks of a target, as far as Docker goes. */
  predicate Ready(d: State, p: Project, svc: Service) {
    && MountsReady(d, p, svc)
    && (forall m :: m in svc.mounts ==> !KindOf(p.spec.volumes, m.name).Unknown?)
    && var n := ContainerName(p.name, svc.name);
       n in d.containers ==> Owned(d.containers[n].labels, OwnerOf(p), svc.name)
  }

  lemma ReadyMountsAreBound(d: State, p: Project, svc: Service)
    requires MountsReady(d, p, svc)
    ensures Bound(LabelsFor(p, svc)) <= d.volumes.Keys
  {
  }

  method PreflightVolumes(daemon: Daemon, p: Project, svc: Service) returns (r: Result)
    requires daemon.Valid()
    modifies daemon
    ensures daemon.Valid() && daemon.Grows() && daemon.account == old(daemon.account)
    ensures Persists(old(daemon.d), daemon.d) && (daemon.quiet ==> daemon.d == old(daemon.d))
    ensures r.Ok? ==> MountsReady(daemon.d, p, svc) && forall m :: m in svc.mounts ==> !KindOf(p.spec.volumes, m.name).Unknown?
  {
    for i := 0 to |svc.mounts|
      invariant daemon.Valid() && daemon.Grows() && daemon.account == old(daemon.account)
      invariant Persists(old(daemon.d), daemon.d) && (daemon.quiet ==> daemon.d == old(daemon.d))
      invariant forall m :: m in svc.mounts[..i] ==>
        && !KindOf(p.spec.volumes, m.name).Unknown?
        && (KindOf(p.spec.volumes, m.name).Ephemeral? ==> VolumeReady(daemon.d, p, m.name))
    {
      var m := svc.mounts[i];
      match KindOf(p.spec.volumes, m.name) {
        case Unknown(_) => return Error;
        case Managed =>
          var usable: bool := *;
          if !usable {
            return VolumeUnavailable;
          }
        case Ephemeral =>
          var found := daemon.LookAtVolume(VolumeName(p.name, m.name));
          match found {
            case LookFailed => return Error;
            case Missing => return VolumeUnavailable;
            case Present(labels) =>
              if !Adoptable(labels, p) {
                return VolumeUnavailable;
              }
          }
      }
    }
    return Ok;
  }

  /** Checks every target before any is touched. It only reads. */
  method PreflightTargets(daemon: Daemon, p: Project, targets: seq<Service>) returns (r: Result)
    requires daemon.Valid()
    modifies daemon
    ensures daemon.Valid() && daemon.Grows() && daemon.account == old(daemon.account)
    ensures Persists(old(daemon.d), daemon.d) && (daemon.quiet ==> daemon.d == old(daemon.d))
    ensures r.Ok? ==> forall s :: s in targets ==> MountsReady(daemon.d, p, s)
    ensures daemon.quiet && r.Ok? ==> forall s :: s in targets ==> Ready(daemon.d, p, s)
  {
    for i := 0 to |targets|
      invariant daemon.Valid() && daemon.Grows() && daemon.account == old(daemon.account)
      invariant Persists(old(daemon.d), daemon.d) && (daemon.quiet ==> daemon.d == old(daemon.d))
      invariant forall s :: s in targets[..i] ==> MountsReady(daemon.d, p, s)
      invariant daemon.quiet ==> forall s :: s in targets[..i] ==> Ready(daemon.d, p, s)
    {
      var svc := targets[i];
      var found := daemon.Inspect(ContainerName(p.name, svc.name));
      if found.InspectFailed? {
        return Error;
      }
      if found.Found? && !Owned(found.container.labels, OwnerOf(p), svc.name) {
        return NotOwned;
      }
      r := PreflightVolumes(daemon, p, svc);
      if !r.Ok? {
        return;
      }
      assert targets[..i + 1] == targets[..i] + [svc];
    }
    return Ok;
  }

  /** The container of `svc` was started though it was built from another spec and
      a volume that spec mounts, which the preflight did not look at, was gone. */
  predicate StartsOutdated(p: Project, svc: Service, d: State, e: Effect) {
    var n := ContainerName(p.name, svc.name);
    && e == SetStatus(n, Running) && n in d.containers
    && d.containers[n].labels.specHash != ServiceSpecHash(svc, p.spec)
    && !(Bound(d.containers[n].labels) <= d.volumes.Keys)
  }

  /** Some effect since `first` started an outdated container of a target. */
  ghost predicate OutdatedStarted(p: Project, targets: seq<Service>, trace: seq<State>, effects: seq<Effect>, first: nat)
    requires |trace| == |effects| + 1
  {
    exists i, s :: first <= i < |effects| && s in targets && StartsOutdated(p, s, trace[i], effects[i])
  }

  /** ... of one target. */
  ghost predicate StaleStart(p: Project, svc: Service, trace: seq<State>, effects: seq<Effect>, first: nat)
    requires |trace| == |effects| + 1
  {
    exists i :: first <= i < |effects| && StartsOutdated(p, svc, trace[i], effects[i])
  }

  predicate ServesAnyhow(d: State, p: Project, svc: Service) {
    var n := ContainerName(p.name, svc.name);
    n in d.containers && Owned(d.containers[n].labels, OwnerOf(p), svc.name) && Up(d.containers[n].status)
  }

  /** An Ephemeral volume that the container's own spec mounts is not there. The
      preflight looks at those of the current spec. */
  predicate LacksVolume(d: State, l: Labels) {
    l.specHash.HashOf?
    && exists m :: m in l.specHash.input.mounts && m.kind.Ephemeral? && VolumeName(l.project, m.name) !in d.volumes
  }

  lemma LackingIsUnbound(d: State, l: Labels)
    ensures LacksVolume(d, l) <==> !(Bound(l) <= d.volumes.Keys)
  {
    if LacksVolume(d, l) {
      var m :| m in l.specHash.input.mounts && m.kind.Ephemeral? && VolumeName(l.project, m.name) !in d.volumes;
      assert VolumeName(l.project, m.name) in Bound(l);
    }
  }

  /** Once the preflight has passed, starting the target's container makes a volume
      if and only if the container is of another spec, and a volume that one mounts
      is gone. */
  lemma StartMakesAVolumeExactlyWhen(d: State, p: Project, svc: Service)
    requires Ready(d, p, svc) && ContainerName(p.name, svc.name) in d.containers
    ensures var n := ContainerName(p.name, svc.name);
            Next(d, SetStatus(n, Running)).volumes != d.volumes <==>
            IsOutdated(d, p, svc) && LacksVolume(d, d.containers[n].labels)
  {
    var l := d.containers[ContainerName(p.name, svc.name)].labels;
    LackingIsUnbound(d, l);
    if Bound(l) <= d.volumes.Keys {
      assert Provided(d.volumes, l) == d.volumes;
    } else {
      var v :| v in Bound(l) && v !in d.volumes;
      assert v in Provided(d.volumes, l);
    }
    if !IsOutdated(d, p, svc) {
      StartingTheSpecsContainerMakesNothing(d, p, svc);
    }
  }

  /** A start cannot make a volume once the preflight has passed, if the container
      was built from the spec. */
  lemma StartingTheSpecsContainerMakesNothing(d: State, p: Project, svc: Service)
    requires MountsReady(d, p, svc) && Built(d, p, svc)
    ensures Next(d, SetStatus(ContainerName(p.name, svc.name), Running)).volumes == d.volumes
  {
  }

  /** It can if the container is of an earlier spec: nothing looked for the volumes
      that one mounts. */
  lemma StartingAnOutdatedContainerCanMakeAVolume()
    ensures exists d, p, svc ::
              && Sound(d) && Ready(d, p, svc) && IsOutdated(d, p, svc)
              && Next(d, SetStatus(ContainerName(p.name, svc.name), Running)).volumes != d.volumes
  {
    var svc := Service("web", "image", [], [], []);
    var p := Project("default", "shop", "u", 1, Spec([svc], [Volume("cache", Ephemeral)], None));
    var was := svc.(mounts := [Mount("cache", "/cache")]);
    var c := Container(0, LabelsFor(p, was), Exited);
    var d := State(map[ContainerName("shop", "web") := c], 1, map[], map[]);
    HashSeesAllButSecretValues(svc, p.spec, was, p.spec);
    var m := c.labels.specHash.input.mounts[0];
    assert m == HashOfMount(p.spec.volumes, was.mounts[0]) && TypeOf(p.spec.volumes, "cache") == Some(Ephemeral);
    assert Sound(d) && Ready(d, p, svc);
    assert was.mounts[0] !in svc.mounts;
    assert IsOutdated(d, p, svc);
    assert VolumeName("shop", "cache") in Bound(c.labels);
    assert VolumeName("shop", "cache") in Next(d, SetStatus(ContainerName("shop", "web"), Running)).volumes;
  }

  /** Starts the container that was found. `bound` says that all it mounts is there. */
  method StartIt(daemon: Daemon, name: string, c: Container, ghost bound: bool) returns (ok: bool)
    requires daemon.Valid() && c.id < daemon.d.nextID && Mine(c.labels, daemon.account.owner)
    requires name in daemon.d.containers && daemon.d.containers[name] == c
    requires bound ==> Bound(c.labels) <= daemon.d.volumes.Keys
    modifies daemon
    ensures daemon.Valid() && daemon.Grows() && daemon.account.owner == old(daemon.account).owner
    ensures daemon.account.touched == old(daemon.account).touched + {ServiceOf(c.labels)}
    ensures daemon.account.sharedRemoved == old(daemon.account).sharedRemoved
    ensures daemon.account.volumesMade == old(daemon.account).volumesMade
    ensures daemon.account.volumesByStart ==>
              || old(daemon.account).volumesByStart
              || (!bound && |daemon.effects| > |old(daemon.effects)| && daemon.StartMadeVolume(name)
                  && daemon.d.containers[name].labels == c.labels)
    ensures daemon.d.networks == old(daemon.d).networks && Keeps(old(daemon.d).volumes, daemon.d.volumes)
    ensures daemon.quiet ==> daemon.d.containers - {name} == old(daemon.d).containers - {name}
    ensures ok ==> name in daemon.d.containers && daemon.d.containers[name].labels == c.labels
                   && Up(daemon.d.containers[name].status)
  {
    daemon.Touch(ServiceOf(c.labels));
    var started := daemon.Start(name, c.id);
    ok := started.Done?;
  }

  /** Starts the stopped container that was found. */
  method StartStopped(daemon: Daemon, p: Project, svc: Service, c: Container) returns (r: Result)
    requires daemon.Valid() && daemon.account.owner == OwnerOf(p) && MountsReady(daemon.d, p, svc)
    requires c.id < daemon.d.nextID && Owned(c.labels, OwnerOf(p), svc.name)
    requires var n := ContainerName(p.name, svc.name); n in daemon.d.containers && daemon.d.containers[n] == c
    modifies daemon
    ensures daemon.Valid() && daemon.Grows() && Moderate(old(daemon.account), daemon.account, svc)
    ensures daemon.account.volumesMade == old(daemon.account).volumesMade
    ensures daemon.account.volumesByStart ==>
              || old(daemon.account).volumesByStart
              || StaleStart(p, svc, daemon.trace, daemon.effects, |old(daemon.effects)|)
    ensures daemon.d.networks == old(daemon.d).networks && Keeps(old(daemon.d).volumes, daemon.d.volumes)
    ensures daemon.quiet ==> OnlyOne(old(daemon.d), daemon.d, p, svc)
    ensures r.Ok? ==> ServesAnyhow(daemon.d, p, svc)
    ensures r.Ok? || r.Error?
  {
    ghost var current := c.labels.specHash == ServiceSpecHash(svc, p.spec);
    ReadyMountsAreBound(daemon.d, p, svc);
    assert current ==> Bound(c.labels) == Bound(LabelsFor(p, svc));
    var ok := StartIt(daemon, ContainerName(p.name, svc.name), c, current);
    ghost var last := |daemon.effects| - 1;
    if daemon.account.volumesByStart && !old(daemon.account).volumesByStart {
      assert StartsOutdated(p, svc, daemon.trace[last], daemon.effects[last]);
    }
    return if ok then Ok else Error;
  }

  /** Brings one target back. */
  method RecoverOne(daemon: Daemon, p: Project, svc: Service) returns (r: Result)
    requires daemon.Valid() && daemon.account.owner == OwnerOf(p) && MountsReady(daemon.d, p, svc)
    modifies daemon
    ensures daemon.Valid() && daemon.Grows() && Moderate(old(daemon.account), daemon.account, svc)
    ensures daemon.account.volumesMade == old(daemon.account).volumesMade
    ensures daemon.account.volumesByStart ==>
              || old(daemon.account).volumesByStart
              || StaleStart(p, svc, daemon.trace, daemon.effects, |old(daemon.effects)|)
    ensures daemon.d.networks == old(daemon.d).networks && Keeps(old(daemon.d).volumes, daemon.d.volumes)
    ensures daemon.quiet ==> OnlyOne(old(daemon.d), daemon.d, p, svc)
    ensures r.Ok? ==> ServesAnyhow(daemon.d, p, svc)
  {
    var n := ContainerName(p.name, svc.name);
    var found := daemon.Inspect(n);
    match found {
      case InspectFailed => return Error;
      case NotFound => r := EnsureAnew(daemon, p, svc);
      case Found(c) =>
        if !Owned(c.labels, OwnerOf(p), svc.name) {
          return NotOwned;
        }
        if Up(c.status) {
          return Ok;
        }
        if c.status.Dead? {
          r := ReplaceDead(daemon, p, svc, c);
        } else {
          r := StartStopped(daemon, p, svc, c);
        }
    }
  }

  /** A dead container can only be removed by force. */
  method RemoveDead(daemon: Daemon, p: Project, svc: Service, c: Container) returns (r: Result)
    requires daemon.Valid() && daemon.account.owner == OwnerOf(p)
    requires c.id < daemon.d.nextID && Owned(c.labels, OwnerOf(p), svc.name)
    requires var n := ContainerName(p.name, svc.name); n in daemon.d.containers && daemon.d.containers[n] == c
    modifies daemon
    ensures daemon.Valid() && daemon.Grows() && Moderate(old(daemon.account), daemon.account, svc)
    ensures MakesNoVolume(old(daemon.account), daemon.account) && Persists(old(daemon.d), daemon.d)
    ensures daemon.quiet ==> OnlyOne(old(daemon.d), daemon.d, p, svc)
    ensures r.Ok? || r.Error?
  {
    daemon.Touch(svc.name);
    var removed := daemon.Remove(ContainerName(p.name, svc.name), c.id, true);
    return if removed.Done? then Ok else Error;
  }

  method EnsureAnew(daemon: Daemon, p: Project, svc: Service) returns (r: Result)
    requires daemon.Valid() && daemon.account.owner == OwnerOf(p) && MountsReady(daemon.d, p, svc)
    modifies daemon
    ensures daemon.Valid() && daemon.Grows() && Moderate(old(daemon.account), daemon.account, svc)
    ensures MakesNoVolume(old(daemon.account), daemon.account)
    ensures daemon.d.networks == old(daemon.d).networks && Keeps(old(daemon.d).volumes, daemon.d.volumes)
    ensures daemon.quiet ==> OnlyOne(old(daemon.d), daemon.d, p, svc)
    ensures r.Ok? ==> ServesAnyhow(daemon.d, p, svc)
  {
    ReadyMountsAreBound(daemon.d, p, svc);
    var made;
    r, made := EnsureContainerPulled(daemon, p, svc, false);
  }

  method ReplaceDead(daemon: Daemon, p: Project, svc: Service, c: Container) returns (r: Result)
    requires daemon.Valid() && daemon.account.owner == OwnerOf(p) && MountsReady(daemon.d, p, svc)
    requires c.id < daemon.d.nextID && Owned(c.labels, OwnerOf(p), svc.name)
    requires var n := ContainerName(p.name, svc.name); n in daemon.d.containers && daemon.d.containers[n] == c
    modifies daemon
    ensures daemon.Valid() && daemon.Grows() && Moderate(old(daemon.account), daemon.account, svc)
    ensures MakesNoVolume(old(daemon.account), daemon.account)
    ensures daemon.d.networks == old(daemon.d).networks && Keeps(old(daemon.d).volumes, daemon.d.volumes)
    ensures daemon.quiet ==> OnlyOne(old(daemon.d), daemon.d, p, svc)
    ensures r.Ok? ==> ServesAnyhow(daemon.d, p, svc)
  {
    r := RemoveDead(daemon, p, svc, c);
    if r.Ok? {
      r := EnsureAnew(daemon, p, svc);
    }
  }

  lemma KeepsServing(a: State, b: State, p: Project, svc: Service, s: Service)
    requires OnlyOne(a, b, p, svc) && s.name != svc.name && ServesAnyhow(a, p, s)
    ensures ServesAnyhow(b, p, s)
  {
    var n, m := ContainerName(p.name, svc.name), ContainerName(p.name, s.name);
    assert n[|p.name| + 1..] == svc.name && m[|p.name| + 1..] == s.name;
    assert m in a.containers - {n} && (a.containers - {n})[m] == (b.containers - {n})[m];
  }

  ghost predicate AllServe(d: State, p: Project, services: seq<Service>) {
    forall s :: s in services ==> s in p.spec.services && ServesAnyhow(d, p, s)
  }

  lemma AllKeepServing(a: State, b: State, p: Project, svc: Service, recovered: seq<Service>)
    requires DistinctServices(p) && svc in p.spec.services && OnlyOne(a, b, p, svc) && ServesAnyhow(b, p, svc)
    requires AllServe(a, p, recovered)
    ensures AllServe(b, p, recovered + [svc])
  {
    forall s | s in recovered ensures ServesAnyhow(b, p, s) {
      if s.name != svc.name {
        KeepsServing(a, b, p, svc, s);
      }
    }
  }

  lemma MountsStayReady(a: State, b: State, p: Project, svc: Service)
    requires MountsReady(a, p, svc) && Keeps(a.volumes, b.volumes)
    ensures MountsReady(b, p, svc)
  {
  }

  /** Brings one of the targets back, and keeps track of the outdated ones started. */
  method RecoverTarget(daemon: Daemon, p: Project, targets: seq<Service>, svc: Service) returns (r: Result)
    requires daemon.Valid() && daemon.account.owner == OwnerOf(p) && svc in targets && MountsReady(daemon.d, p, svc)
    modifies daemon
    ensures daemon.Valid() && daemon.Grows() && Moderate(old(daemon.account), daemon.account, svc)
    ensures daemon.account.volumesMade == old(daemon.account).volumesMade
    ensures daemon.account.volumesByStart ==>
              || old(daemon.account).volumesByStart
              || OutdatedStarted(p, targets, daemon.trace, daemon.effects, daemon.since)
    ensures OutdatedStarted(p, targets, old(daemon.trace), old(daemon.effects), daemon.since) ==>
              OutdatedStarted(p, targets, daemon.trace, daemon.effects, daemon.since)
    ensures Keeps(old(daemon.d).volumes, daemon.d.volumes)
    ensures daemon.quiet ==> OnlyOne(old(daemon.d), daemon.d, p, svc)
    ensures r.Ok? ==> ServesAnyhow(daemon.d, p, svc)
  {
    r := RecoverOne(daemon, p, svc);
    OutdatedStartedStays(
      p, targets, svc, old(daemon.trace), old(daemon.effects), daemon.trace, daemon.effects, daemon.since);
  }

  method RecoverEach(daemon: Daemon, p: Project, names: set<string>, targets: seq<Service>) returns (r: Result)
    requires daemon.Valid() && daemon.account == Account(OwnerOf(p), {}, false, false, false)
    requires forall s :: s in targets ==> s in p.spec.services && s.name in names && MountsReady(daemon.d, p, s)
    modifies daemon
    ensures daemon.Valid() && daemon.Grows() && daemon.account.touched <= names
    ensures !daemon.account.sharedRemoved && !daemon.account.volumesMade
    ensures daemon.account.volumesByStart ==> OutdatedStarted(p, targets, daemon.trace, daemon.effects, daemon.since)
    ensures daemon.quiet && r.Ok? && DistinctServices(p) ==> forall s :: s in targets ==> ServesAnyhow(daemon.d, p, s)
  {
    r := Ok;
    for i := 0 to |targets|
      invariant daemon.Valid() && daemon.Grows() && r.Ok? && daemon.account.owner == OwnerOf(p)
      invariant daemon.account.touched <= names && !daemon.account.sharedRemoved && !daemon.account.volumesMade
      invariant daemon.account.volumesByStart ==> OutdatedStarted(p, targets, daemon.trace, daemon.effects, daemon.since)
      invariant Keeps(old(daemon.d).volumes, daemon.d.volumes)
      invariant daemon.quiet && DistinctServices(p) ==> AllServe(daemon.d, p, targets[..i])
    {
      MountsStayReady(old(daemon.d), daemon.d, p, targets[i]);
      ghost var before := daemon.d;
      r := RecoverTarget(daemon, p, targets, targets[i]);
      if !r.Ok? {
        return;
      }
      if daemon.quiet && DistinctServices(p) {
        AllKeepServing(before, daemon.d, p, targets[i], targets[..i]);
        assert targets[..i + 1] == targets[..i] + [targets[i]];
      }
    }
  }

  lemma OutdatedStartedStays(
    p: Project, targets: seq<Service>, svc: Service,
    trace: seq<State>, effects: seq<Effect>, trace': seq<State>, effects': seq<Effect>, first: nat)
    requires |trace| == |effects| + 1 && |trace'| == |effects'| + 1
    requires trace <= trace' && effects <= effects' && svc in targets && first <= |effects|
    ensures OutdatedStarted(p, targets, trace, effects, first) ==> OutdatedStarted(p, targets, trace', effects', first)
    ensures StaleStart(p, svc, trace', effects', |effects|) ==> OutdatedStarted(p, targets, trace', effects', first)
  {
  }

  lemma OutdatedStartsAreAccounted(daemon: Daemon, p: Project, targets: seq<Service>)
    requires daemon.Valid()
    ensures OutdatedStarted(p, targets, daemon.trace, daemon.effects, daemon.since) ==> daemon.account.volumesByStart
  {
    if OutdatedStarted(p, targets, daemon.trace, daemon.effects, daemon.since) {
      var i, s :| daemon.since <= i < |daemon.effects| && s in targets
        && StartsOutdated(p, s, daemon.trace[i], daemon.effects[i]);
      assert Covers(daemon.account, daemon.trace[i], daemon.effects[i]);
    }
  }

  /** Recovers the named services. `refused` says the preflight stopped it before
      anything was touched. No network or volume is ever removed, no container of
      another service changed, and a volume made exactly if a container that was
      built from another spec was started and a volume of that spec was gone. */
  method RecoverServices(daemon: Daemon, p: Project, names: set<string>) returns (r: Result, refused: bool)
    requires daemon.Valid()
    modifies daemon
    ensures daemon.Valid() && daemon.since == |old(daemon.effects)| && old(daemon.effects) <= daemon.effects
    ensures refused ==> !r.Ok? && daemon.account.touched == {} && Persists(old(daemon.d), daemon.d)
    ensures refused && daemon.quiet ==> daemon.d == old(daemon.d)
    ensures daemon.quiet && !refused ==> forall s :: s in TargetsIn(p.spec.services, names) ==> Ready(old(daemon.d), p, s)
    ensures daemon.account.owner == OwnerOf(p) && daemon.account.touched <= names
    ensures !daemon.account.sharedRemoved && !daemon.account.volumesMade
    ensures daemon.account.volumesByStart <==>
              OutdatedStarted(p, TargetsIn(p.spec.services, names), daemon.trace, daemon.effects, daemon.since)
    ensures daemon.quiet && r.Ok? && DistinctServices(p) ==>
              forall s :: s in TargetsIn(p.spec.services, names) ==> ServesAnyhow(daemon.d, p, s)
  {
    daemon.Begin(OwnerOf(p));
    var targets := TargetsIn(p.spec.services, names);
    r := PreflightTargets(daemon, p, targets);
    if !r.Ok? {
      return r, true;
    }
    refused := false;
    r := EnsureNetwork(daemon, p);
    if !r.Ok? {
      return;
    }
    r := RecoverEach(daemon, p, names, targets);
    OutdatedStartsAreAccounted(daemon, p, targets);
  }
}
