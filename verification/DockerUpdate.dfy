/** Comparing a Project's containers with its spec, and bringing them to it. */
module DockerUpdate {
  import opened Docker
  import opened DockerSpec
  import opened DockerEnsure
  import opened Text

  datatype Stale = Stale(name: string, service: string)

  datatype Drift = Drift(outdated: seq<string>, missing: seq<string>, removed: seq<Stale>)

  predicate Changes(drift: Drift) {
    |drift.outdated| > 0 || |drift.removed| > 0
  }

  predicate Listed(p: Project, service: string) {
    exists s :: s in p.spec.services && s.name == service
  }

  /** A service container of this assignment whose service the spec does not have. */
  predicate IsUnlisted(l: Labels, p: Project) {
    l.service.Some? && Mine(l, OwnerOf(p)) && !Listed(p, l.service.value)
  }

  function Unlisted(containers: map<string, Container>, p: Project): set<string> {
    set n | n in containers && IsUnlisted(containers[n].labels, p)
  }

  /** The container called after `svc` is this assignment's, if there is one. */
  predicate OursIfThere(d: State, p: Project, svc: Service) {
    var n := ContainerName(p.name, svc.name);
    n in d.containers ==> Owned(d.containers[n].labels, OwnerOf(p), svc.name)
  }

  predicate IsMissing(d: State, p: Project, svc: Service) {
    ContainerName(p.name, svc.name) !in d.containers
  }

  predicate IsOutdated(d: State, p: Project, svc: Service) {
    !IsMissing(d, p, svc) && d.containers[ContainerName(p.name, svc.name)].labels.specHash != ServiceSpecHash(svc, p.spec)
  }

  function OutdatedIn(d: State, p: Project, services: seq<Service>): (r: seq<string>)
    ensures forall n :: n in r <==> exists s :: s in services && s.name == n && IsOutdated(d, p, s)
  {
    if services == [] then []
    else
      var last := services[|services| - 1];
      OutdatedIn(d, p, services[..|services| - 1]) + if IsOutdated(d, p, last) then [last.name] else []
  }

  function MissingIn(d: State, p: Project, services: seq<Service>): (r: seq<string>)
    ensures forall n :: n in r <==> exists s :: s in services && s.name == n && IsMissing(d, p, s)
  {
    if services == [] then []
    else
      var last := services[|services| - 1];
      MissingIn(d, p, services[..|services| - 1]) + if IsMissing(d, p, last) then [last.name] else []
  }

  function Names(removed: seq<Stale>): seq<string> {
    seq(|removed|, i requires 0 <= i < |removed| => removed[i].name)
  }

  /** `removed` lists the unlisted containers in name order, with their services. */
  ghost predicate IsListing(containers: map<string, Container>, p: Project, removed: seq<Stale>) {
    && StrictlySorted(Names(removed)) && Elements(Names(removed)) == Unlisted(containers, p)
    && forall i :: 0 <= i < |removed| ==>
         && removed[i].name in containers && ServiceOf(containers[removed[i].name].labels) == removed[i].service
         && !Listed(p, removed[i].service)
  }

  ghost predicate IsDrift(d: State, p: Project, drift: Drift) {
    && (forall s :: s in p.spec.services ==> OursIfThere(d, p, s))
    && drift.outdated == OutdatedIn(d, p, p.spec.services)
    && drift.missing == MissingIn(d, p, p.spec.services)
    && IsListing(d.containers, p, drift.removed)
  }

  /** Exactly the containers the spec asks for, built from it. */
  ghost predicate Converged(d: State, p: Project) {
    && (forall s :: s in p.spec.services ==> Built(d, p, s))
    && Unlisted(d.containers, p) == {}
  }

  /** An empty drift is the same as containers that are exactly what the spec asks
      for. */
  lemma NoDriftIsConverged(d: State, p: Project)
    ensures IsDrift(d, p, Drift([], [], [])) <==> Converged(d, p)
  {
    var missing, outdated := MissingIn(d, p, p.spec.services), OutdatedIn(d, p, p.spec.services);
    assert Elements(Names([])) == {};
    if Converged(d, p) {
      assert forall s :: s in p.spec.services ==> !IsMissing(d, p, s) && !IsOutdated(d, p, s);
      assert Elements(missing) == {} && Elements(outdated) == {};
    }
    if missing == [] && outdated == [] {
      forall s | s in p.spec.services ensures !IsMissing(d, p, s) && !IsOutdated(d, p, s) {
        assert s.name !in missing && s.name !in outdated;
      }
    }
  }

  method ListUnlisted(found: map<string, Container>, p: Project) returns (out: seq<Stale>)
    ensures IsListing(found, p, out)
  {
    var names, rest := [], found.Keys;
    while rest != {}
      invariant rest <= found.Keys
      invariant StrictlySorted(names) && Elements(names) == Unlisted(found, p) - rest
      decreases rest
    {
      var n :| n in rest;
      rest := rest - {n};
      if IsUnlisted(found[n].labels, p) {
        InsertKeepsOrder(n, names);
        names := Insert(n, names);
      }
    }
    assert forall i :: 0 <= i < |names| ==> names[i] in Elements(names);
    out := seq(|names|, i requires 0 <= i < |names| => Stale(names[i], ServiceOf(found[names[i]].labels)));
    assert Names(out) == names;
  }

  /** The containers of `p`'s assignment whose service is not in the spec. */
  method UnlistedContainers(daemon: Daemon, p: Project) returns (ok: bool, out: seq<Stale>)
    requires daemon.Valid()
    modifies daemon
    ensures daemon.Valid() && daemon.Grows() && daemon.account == old(daemon.account)
    ensures Persists(old(daemon.d), daemon.d) && (daemon.quiet ==> daemon.d == old(daemon.d))
    ensures ok ==> IsListing(daemon.d.containers, p, out)
  {
    var found;
    ok, found := daemon.List();
    out := ListUnlisted(found, p);
  }

  /** Whether the container of `svc` is missing or outdated; one of another
      assignment cannot be compared. */
  method CompareService(daemon: Daemon, p: Project, svc: Service) returns (r: Result, missing: bool, outdated: bool)
    requires daemon.Valid()
    modifies daemon
    ensures daemon.Valid() && daemon.Grows() && daemon.account == old(daemon.account)
    ensures Persists(old(daemon.d), daemon.d) && (daemon.quiet ==> daemon.d == old(daemon.d))
    ensures daemon.quiet && r.Ok? ==>
              && OursIfThere(daemon.d, p, svc)
              && missing == IsMissing(daemon.d, p, svc) && outdated == IsOutdated(daemon.d, p, svc)
    ensures daemon.quiet && r.NotOwned? ==> !OursIfThere(daemon.d, p, svc)
    ensures r.Ok? || r.NotOwned? || r.Error?
  {
    var found := daemon.Inspect(ContainerName(p.name, svc.name));
    match found {
      case InspectFailed => return Error, false, false;
      case NotFound => return Ok, true, false;
      case Found(c) =>
        if !Owned(c.labels, OwnerOf(p), svc.name) {
          return NotOwned, false, false;
        }
        return Ok, false, c.labels.specHash != ServiceSpecHash(svc, p.spec);
    }
  }

  method CompareServices(daemon: Daemon, p: Project) returns (r: Result, drift: Drift)
    requires daemon.Valid()
    modifies daemon
    ensures daemon.Valid() && daemon.Grows() && daemon.account == old(daemon.account)
    ensures Persists(old(daemon.d), daemon.d) && (daemon.quiet ==> daemon.d == old(daemon.d))
    ensures daemon.quiet && r.Ok? ==>
              && (forall s :: s in p.spec.services ==> OursIfThere(daemon.d, p, s))
              && drift.outdated == OutdatedIn(daemon.d, p, p.spec.services)
              && drift.missing == MissingIn(daemon.d, p, p.spec.services)
    ensures r.Ok? || r.NotOwned? || r.Error?
    ensures daemon.quiet && r.NotOwned? ==> exists s :: s in p.spec.services && !OursIfThere(daemon.d, p, s)
  {
    drift := Drift([], [], []);
    var services := p.spec.services;
    for i := 0 to |services|
      invariant daemon.Valid() && daemon.Grows() && daemon.account == old(daemon.account)
      invariant Persists(old(daemon.d), daemon.d) && (daemon.quiet ==> daemon.d == old(daemon.d))
      invariant daemon.quiet ==>
        && (forall s :: s in services[..i] ==> OursIfThere(daemon.d, p, s))
        && drift.outdated == OutdatedIn(daemon.d, p, services[..i])
        && drift.missing == MissingIn(daemon.d, p, services[..i])
    {
      var svc := services[i];
      assert services[..i + 1] == services[..i] + [svc] && services[..i + 1][..i] == services[..i];
      var missing, outdated;
      r, missing, outdated := CompareService(daemon, p, svc);
      if !r.Ok? {
        return;
      }
      drift := drift.(missing := drift.missing + if missing then [svc.name] else [],
      outdated := drift.outdated + if outdated then [svc.name] else []);
    }
    assert services[..|services|] == services;
    r := Ok;
  }

  method SpecDrift(daemon: Daemon, p: Project) returns (r: Result, drift: Drift)
    requires daemon.Valid()
    modifies daemon
    ensures daemon.Valid() && daemon.Grows() && daemon.account == old(daemon.account)
    ensures Persists(old(daemon.d), daemon.d) && (daemon.quiet ==> daemon.d == old(daemon.d))
    ensures daemon.quiet && r.Ok? ==> IsDrift(daemon.d, p, drift)
    ensures r.Ok? || r.NotOwned? || r.Error?
    ensures daemon.quiet && r.NotOwned? ==> exists s :: s in p.spec.services && !OursIfThere(daemon.d, p, s)
  {
    r, drift := CompareServices(daemon, p);
    if !r.Ok? {
      return r, Drift([], [], []);
    }
    var ok, removed := UnlistedContainers(daemon, p);
    if !ok {
      return Error, Drift([], [], []);
    }
    return Ok, drift.(removed := removed);
  }

  method PullAll(p: Project, build: seq<string>) returns (r: Result)
    ensures r.Ok? ==> forall n :: n in build ==> Listed(p, n)
    ensures r.Error? ==> exists n :: n in build && !Listed(p, n)
    ensures r.Ok? || r.PullFailed? || r.Error?
  {
    for i := 0 to |build|
      invariant forall n :: n in build[..i] ==> Listed(p, n)
    {
      if !Listed(p, build[i]) {
        return Error;
      }
      var svc :| svc in p.spec.services && svc.name == build[i];
      r := PullImage(svc.image);
      if !r.Ok? {
        return;
      }
    }
    return Ok;
  }

  /** The containers of those services whose name is in `which`. */
  function ContainersOf(p: Project, services: seq<Service>, which: seq<string>): set<string> {
    set s | s in services && s.name in which :: ContainerName(p.name, s.name)
  }

  lemma FirstOf(p: Project, services: seq<Service>, which: seq<string>)
    requires |services| > 0
    ensures ContainersOf(p, services, which) ==
            ContainersOf(p, services[1..], which)
            + if services[0].name in which then {ContainerName(p.name, services[0].name)} else {}
  {
  }

  method RemoveIfOutdated(daemon: Daemon, p: Project, svc: Service, outdated: seq<string>) returns (r: Result)
    requires daemon.Valid() && daemon.account.owner == OwnerOf(p)
    modifies daemon
    ensures daemon.Valid() && daemon.Grows()
    ensures daemon.account == old(daemon.account).(touched := daemon.account.touched)
    ensures daemon.account.touched <= old(daemon.account).touched + Elements(outdated)
    ensures daemon.quiet && r.Ok? ==>
              daemon.d.containers ==
              old(daemon.d).containers - if svc.name in outdated then {ContainerName(p.name, svc.name)} else {}
    ensures r.Ok? || r.NotOwned? || r.Error?
  {
    r := Ok;
    if svc.name in outdated {
      r := RemoveOwnedContainer(daemon, ContainerName(p.name, svc.name), p, svc.name);
    }
  }

  /** Outdated containers go in reverse spec order. */
  method RemoveOutdated(daemon: Daemon, p: Project, outdated: seq<string>) returns (r: Result)
    requires daemon.Valid() && daemon.account.owner == OwnerOf(p)
    modifies daemon
    ensures daemon.Valid() && daemon.Grows()
    ensures daemon.account == old(daemon.account).(touched := daemon.account.touched)
    ensures daemon.account.touched <= old(daemon.account).touched + Elements(outdated)
    ensures daemon.quiet && r.Ok? ==>
              daemon.d.containers == old(daemon.d).containers - ContainersOf(p, p.spec.services, outdated)
    ensures r.Ok? || r.NotOwned? || r.Error?
  {
    var services := p.spec.services;
    r := Ok;
    for i := |services| downto 0
      invariant daemon.Valid() && daemon.Grows() && r.Ok?
      invariant daemon.account == old(daemon.account).(touched := daemon.account.touched)
      invariant daemon.account.touched <= old(daemon.account).touched + Elements(outdated)
      invariant daemon.quiet ==> daemon.d.containers == old(daemon.d).containers - ContainersOf(p, services[i..], outdated)
    {
      r := RemoveIfOutdated(daemon, p, services[i], outdated);
      if !r.Ok? {
        return;
      }
      FirstOf(p, services[i..], outdated);
      assert services[i..][1..] == services[i + 1..];
    }
    assert services[0..] == services;
  }

  method RemoveListed(daemon: Daemon, p: Project, removed: seq<Stale>) returns (r: Result)
    requires daemon.Valid() && daemon.account.owner == OwnerOf(p)
    modifies daemon
    ensures daemon.Valid() && daemon.Grows()
    ensures daemon.account == old(daemon.account).(touched := daemon.account.touched)
    ensures daemon.d.networks == old(daemon.d).networks && daemon.d.volumes == old(daemon.d).volumes
    ensures daemon.quiet && r.Ok? ==> daemon.d.containers == old(daemon.d).containers - Elements(Names(removed))
    ensures r.Ok? || r.NotOwned? || r.Error?
  {
    r := Ok;
    for i := 0 to |removed|
      invariant daemon.Valid() && daemon.Grows() && r.Ok?
      invariant daemon.account == old(daemon.account).(touched := daemon.account.touched)
      invariant daemon.d.networks == old(daemon.d).networks && daemon.d.volumes == old(daemon.d).volumes
      invariant daemon.quiet ==> daemon.d.containers == old(daemon.d).containers - Elements(Names(removed[..i]))
    {
      r := RemoveOwnedContainer(daemon, removed[i].name, p, removed[i].service);
      if !r.Ok? {
        return;
      }
      assert Names(removed[..i + 1]) == Names(removed[..i]) + [removed[i].name];
    }
    assert removed[..|removed|] == removed;
  }

  /** New containers are made in spec order. */
  method BuildAll(daemon: Daemon, p: Project, build: seq<string>) returns (r: Result)
    requires daemon.Valid() && daemon.account.owner == OwnerOf(p)
    modifies daemon
    ensures daemon.Valid() && daemon.Grows() && daemon.account.sharedRemoved == old(daemon.account).sharedRemoved
    ensures daemon.d.networks == old(daemon.d).networks && Keeps(old(daemon.d).volumes, daemon.d.volumes)
    ensures daemon.quiet ==>
              var names := ContainersOf(p, p.spec.services, build);
              daemon.d.containers - names == old(daemon.d).containers - names
    ensures daemon.quiet && r.Ok? && DistinctServices(p) ==>
              forall s :: s in p.spec.services && s.name in build ==> Serves(daemon.d, p, s)
    ensures !r.PullFailed?
  {
    var services := p.spec.services;
    ghost var names := ContainersOf(p, services, build);
    r := Ok;
    for i := 0 to |services|
      invariant daemon.Valid() && daemon.Grows() && daemon.account.sharedRemoved == old(daemon.account).sharedRemoved && r.Ok?
      invariant daemon.account.owner == OwnerOf(p)
      invariant daemon.d.networks == old(daemon.d).networks && Keeps(old(daemon.d).volumes, daemon.d.volumes)
      invariant daemon.quiet ==> daemon.d.containers - names == old(daemon.d).containers - names
      invariant daemon.quiet && DistinctServices(p) ==>
        forall k :: 0 <= k < i && services[k].name in build ==> Serves(daemon.d, p, services[k])
    {
      var svc := services[i];
      if svc.name in build {
        var made;
        ghost var before := daemon.d;
        r, made := EnsureContainerPulled(daemon, p, svc, true);
        if daemon.quiet {
          OthersKeepTheirBuild(before, daemon.d, p, svc, services[..i], names);
        }
        if !r.Ok? {
          return;
        }
      }
    }
  }

  lemma OthersKeepTheirBuild(a: State, b: State, p: Project, svc: Service, others: seq<Service>, names: set<string>)
    requires OnlyOne(a, b, p, svc) && ContainerName(p.name, svc.name) in names
    ensures a.containers - names == b.containers - names
    ensures forall s :: s in others && s.name != svc.name && Serves(a, p, s) ==> Serves(b, p, s)
  {
    var n := ContainerName(p.name, svc.name);
    assert a.containers - names == (a.containers - {n}) - names;
    assert b.containers - names == (b.containers - {n}) - names;
    forall s | s in others && s.name != svc.name ensures ContainerName(p.name, s.name) != n {
      assert ContainerName(p.name, s.name)[|p.name| + 1..] == s.name;
      assert n[|p.name| + 1..] == svc.name;
    }
    assert forall m :: m in a.containers && m != n ==> m in a.containers - {n} && (a.containers - {n})[m] == a.containers[m];
  }

  /** What an update that ran to its end leaves, once it has removed what the drift
      named and built what was outdated or missing. */
  lemma UpdatedIsConverged(before: State, between: State, now: State, p: Project, drift: Drift)
    requires DistinctServices(p) && IsDrift(before, p, drift)
    requires between.containers == before.containers - ContainersOf(p, p.spec.services, drift.outdated) - Elements(Names(drift.removed))
    requires var names := ContainersOf(p, p.spec.services, drift.outdated + drift.missing);
             now.containers - names == between.containers - names
    requires forall s :: s in p.spec.services && s.name in drift.outdated + drift.missing ==> Built(now, p, s)
    ensures Converged(now, p)
  {
    var build := drift.outdated + drift.missing;
    var names := ContainersOf(p, p.spec.services, build);
    forall s | s in p.spec.services
      ensures Built(now, p, s)
    {
      if s.name !in build {
        UntouchedStaysBuilt(before, between, now, p, drift, s);
      }
    }
    forall n | n in now.containers
      ensures !IsUnlisted(now.containers[n].labels, p)
    {
      if n in names {
        var s :| s in p.spec.services && s.name in build && n == ContainerName(p.name, s.name);
        assert Built(now, p, s);
      } else {
        assert n in now.containers - names && (now.containers - names)[n] == (between.containers - names)[n];
        assert n in between.containers && now.containers[n] == before.containers[n];
        assert n !in Unlisted(before.containers, p);
      }
    }
  }

  lemma NameTellsService(p: Project, s: Service, t: Service)
    requires ContainerName(p.name, s.name) == ContainerName(p.name, t.name)
    ensures s.name == t.name
  {
    assert ContainerName(p.name, s.name)[|p.name| + 1..] == s.name;
    assert ContainerName(p.name, t.name)[|p.name| + 1..] == t.name;
  }

  lemma UntouchedStaysBuilt(before: State, between: State, now: State, p: Project, drift: Drift, s: Service)
    requires IsDrift(before, p, drift) && s in p.spec.services && s.name !in drift.outdated + drift.missing
    requires between.containers == before.containers - ContainersOf(p, p.spec.services, drift.outdated) - Elements(Names(drift.removed))
    requires var names := ContainersOf(p, p.spec.services, drift.outdated + drift.missing);
             now.containers - names == between.containers - names
    ensures Built(now, p, s)
  {
    var n := ContainerName(p.name, s.name);
    var names := ContainersOf(p, p.spec.services, drift.outdated + drift.missing);
    assert !IsMissing(before, p, s) && !IsOutdated(before, p, s) && OursIfThere(before, p, s);
    forall t | t in p.spec.services && ContainerName(p.name, t.name) == n ensures t.name == s.name {
      NameTellsService(p, s, t);
    }
    assert n !in names && n !in ContainersOf(p, p.spec.services, drift.outdated);
    assert n !in Unlisted(before.containers, p);
    assert n in between.containers - names && (now.containers - names)[n] == before.containers[n];
  }

  /** Removes the outdated containers and those of removed services, then makes
      sure of the network and the volumes. */
  method MakeRoom(daemon: Daemon, p: Project, drift: Drift) returns (r: Result)
    requires daemon.Valid() && daemon.account.owner == OwnerOf(p)
    modifies daemon
    ensures daemon.Valid() && daemon.Grows() && daemon.account.owner == OwnerOf(p)
    ensures daemon.account.sharedRemoved == old(daemon.account).sharedRemoved
    ensures r.Ok? ==> NetworkReady(daemon.d, p) && VolumesReady(daemon.d, p)
    ensures daemon.quiet && r.Ok? ==>
              daemon.d.containers ==
              old(daemon.d).containers - ContainersOf(p, p.spec.services, drift.outdated) - Elements(Names(drift.removed))
    ensures !r.PullFailed?
  {
    r := RemoveOutdated(daemon, p, drift.outdated);
    if r.Ok? {
      r := RemoveListed(daemon, p, drift.removed);
    }
    if r.Ok? {
      r := EnsureNetwork(daemon, p);
    }
    if r.Ok? {
      r := EnsureVolumes(daemon, p);
    }
  }

  /** Pulls every image the update needs, removes what is outdated or no longer
      listed, and builds what is then missing. */
  method UpdateServices(daemon: Daemon, p: Project, drift: Drift) returns (r: Result)
    requires daemon.Valid() && daemon.account.owner == OwnerOf(p)
    modifies daemon
    ensures daemon.Valid() && daemon.Grows() && daemon.account.sharedRemoved == old(daemon.account).sharedRemoved
    ensures r.Ok? ==> NetworkReady(daemon.d, p) && VolumesReady(daemon.d, p)
    ensures r.PullFailed? ==> daemon.d == old(daemon.d) && daemon.effects == old(daemon.effects)
    ensures daemon.quiet && r.Ok? && DistinctServices(p) && IsDrift(old(daemon.d), p, drift) ==> Converged(daemon.d, p)
  {
    var build := drift.outdated + drift.missing;
    r := PullAll(p, build);
    if !r.Ok? {
      return;
    }
    r := MakeRoom(daemon, p, drift);
    if !r.Ok? {
      return;
    }
    ghost var between := daemon.d;
    r := BuildAll(daemon, p, build);
    if daemon.quiet && r.Ok? && DistinctServices(p) && IsDrift(old(daemon.d), p, drift) {
      UpdatedIsConverged(old(daemon.d), between, daemon.d, p, drift);
    }
  }

  /** The decision of one poll. What only has to be made again is an update's affair
      before the revision has been seen running, and a crash's after. */
  predicate SpecUpdateNeeded(observed: int, revision: int, drift: Drift) {
    Changes(drift) || (observed < revision && |drift.missing| > 0)
  }

  /** While a revision is unreported, an update is due exactly as long as the
      containers are not what the spec asks for: one cut short at any call is
      taken up again, and none is made once nothing is left to do. */
  lemma InterruptedUpdatesAreResumed(observed: int, revision: int, d: State, p: Project, drift: Drift)
    requires IsDrift(d, p, drift) && observed < revision
    ensures SpecUpdateNeeded(observed, revision, drift) <==> !Converged(d, p)
  {
    NoDriftIsConverged(d, p);
    if !SpecUpdateNeeded(observed, revision, drift) {
      assert drift == Drift([], [], []);
    }
    if Converged(d, p) {
      assert IsDrift(d, p, Drift([], [], []));
      SortedListingIsUnique(Names(drift.removed), []);
    }
  }

  /** Once it is reported, a missing container alone is a crash and no update. */
  lemma CrashesAreNotUpdates(observed: int, revision: int, d: State, p: Project, drift: Drift)
    requires IsDrift(d, p, drift) && revision <= observed
    ensures SpecUpdateNeeded(observed, revision, drift) <==>
              (exists s :: s in p.spec.services && IsOutdated(d, p, s)) || Unlisted(d.containers, p) != {}
  {
    assert Elements(Names(drift.removed)) == {} <==> drift.removed == [] by {
      assert |Names(drift.removed)| == |drift.removed|;
    }
    forall s | s in p.spec.services && IsOutdated(d, p, s) ensures s.name in drift.outdated {
    }
    if |drift.outdated| > 0 {
      assert drift.outdated[0] in OutdatedIn(d, p, p.spec.services);
    }
  }

  /** A service of the resolved copy reads like the declared one. */
  lemma ServiceReadsAlike(fetch: string -> Fetched, included: set<string>, p: Project, r: Project, d: State, i: nat)
    requires ProjectResolved(fetch, included, p, r) && i < |p.spec.services|
    ensures var s, t := p.spec.services[i], r.spec.services[i];
            && s.name == t.name && OursIfThere(d, p, s) == OursIfThere(d, r, t)
            && IsMissing(d, p, s) == IsMissing(d, r, t) && IsOutdated(d, p, s) == IsOutdated(d, r, t)
  {
    ResolvingKeepsHashes(fetch, included, p, r, i);
  }

  lemma {:induction false} OutdatedReadsAlike(fetch: string -> Fetched, included: set<string>, p: Project, r: Project, d: State, k: nat)
    requires ProjectResolved(fetch, included, p, r) && k <= |p.spec.services|
    ensures OutdatedIn(d, p, p.spec.services[..k]) == OutdatedIn(d, r, r.spec.services[..k])
  {
    if k > 0 {
      OutdatedReadsAlike(fetch, included, p, r, d, k - 1);
      ServiceReadsAlike(fetch, included, p, r, d, k - 1);
      assert p.spec.services[..k][..k - 1] == p.spec.services[..k - 1];
      assert r.spec.services[..k][..k - 1] == r.spec.services[..k - 1];
    }
  }

  lemma {:induction false} MissingReadsAlike(fetch: string -> Fetched, included: set<string>, p: Project, r: Project, d: State, k: nat)
    requires ProjectResolved(fetch, included, p, r) && k <= |p.spec.services|
    ensures MissingIn(d, p, p.spec.services[..k]) == MissingIn(d, r, r.spec.services[..k])
  {
    if k > 0 {
      MissingReadsAlike(fetch, included, p, r, d, k - 1);
      ServiceReadsAlike(fetch, included, p, r, d, k - 1);
      assert p.spec.services[..k][..k - 1] == p.spec.services[..k - 1];
      assert r.spec.services[..k][..k - 1] == r.spec.services[..k - 1];
    }
  }

  lemma OursReadAlike(fetch: string -> Fetched, included: set<string>, p: Project, r: Project, d: State)
    requires ProjectResolved(fetch, included, p, r)
    ensures (forall s :: s in p.spec.services ==> OursIfThere(d, p, s)) <==> (forall s :: s in r.spec.services ==> OursIfThere(d, r, s))
  {
    var services, resolved := p.spec.services, r.spec.services;
    forall i | 0 <= i < |services| ensures OursIfThere(d, p, services[i]) == OursIfThere(d, r, resolved[i]) {
      ServiceReadsAlike(fetch, included, p, r, d, i);
    }
    assert (forall s :: s in services ==> OursIfThere(d, p, s)) <==> (forall i :: 0 <= i < |services| ==> OursIfThere(d, p, services[i]));
    assert (forall s :: s in resolved ==> OursIfThere(d, r, s)) <==> (forall i :: 0 <= i < |resolved| ==> OursIfThere(d, r, resolved[i]));
  }

  /** Comparing with the resolved copy of a Project is comparing with the Project:
      the update acts on the copy, the drift was read for the declared spec. */
  lemma DriftIgnoresSecretValues(fetch: string -> Fetched, included: set<string>, p: Project, r: Project, d: State, drift: Drift)
    requires ProjectResolved(fetch, included, p, r)
    ensures IsDrift(d, p, drift) <==> IsDrift(d, r, drift)
  {
    var services, resolved := p.spec.services, r.spec.services;
    OutdatedReadsAlike(fetch, included, p, r, d, |services|);
    MissingReadsAlike(fetch, included, p, r, d, |services|);
    assert services[..|services|] == services && resolved[..|resolved|] == resolved;
    SameListings(fetch, included, p, r, d.containers, drift.removed);
    OursReadAlike(fetch, included, p, r, d);
  }

  lemma SameListings(
    fetch: string -> Fetched, included: set<string>, p: Project, r: Project,
    containers: map<string, Container>, removed: seq<Stale>)
    requires ProjectResolved(fetch, included, p, r)
    ensures IsListing(containers, p, removed) <==> IsListing(containers, r, removed)
  {
  }
}
