/** A Docker daemon as maps of labelled containers, networks and volumes, and its
    API as calls that may fail. Everything that happens to it is logged, one
    effect at a time. */
module Docker {

  datatype Option<T> = None | Some(value: T)

  datatype VolumeType = Ephemeral | Managed | Unknown(kind: string)

  /** What a service container is built from. An environment variable that comes
      from a Secret is named by its reference, never by its value. */
  datatype EnvHash = FromValue(name: string, value: string) | FromSecret(name: string, secret: string, key: string)

  datatype MountHash = MountHash(name: string, path: string, kind: VolumeType)

  datatype HashInput = HashInput(
    image: string, command: seq<string>, env: seq<EnvHash>, mounts: seq<MountHash>, restartedAt: Option<int>)

  /** SHA-256 of the encoded input, taken to be injective. */
  datatype Hash = NoHash | HashOf(input: HashInput)

  /** The labels that matter; absent ones are "", None and NoHash. */
  datatype Labels = Labels(
    project: string, service: Option<string>, namespace: string, uid: string, generation: Option<int>, specHash: Hash)

  datatype Status = Created | Running | Restarting | Paused | Exited | Dead

  /** What Docker calls running: a paused or restarting container is too. */
  predicate Up(s: Status) {
    s.Running? || s.Restarting? || s.Paused?
  }

  datatype Container = Container(id: nat, labels: Labels, status: Status)

  /** Containers, networks and volumes by name. A container's ID is never used
      twice. */
  datatype State = State(
    containers: map<string, Container>, nextID: nat, networks: map<string, Labels>, volumes: map<string, Labels>)

  predicate Sound(d: State) {
    forall n :: n in d.containers ==> d.containers[n].id < d.nextID
  }

  /** The container called `name` is still the one with this ID. */
  predicate Here(d: State, name: string, id: nat) {
    name in d.containers && d.containers[name].id == id
  }

  /** Only the status of one container is different. */
  predicate Becomes(a: State, b: State, name: string, id: nat, status: Status) {
    Here(a, name, id) && b.containers == a.containers[name := a.containers[name].(status := status)]
  }

  function VolumeName(project: string, volume: string): string {
    "cara-" + project + "-" + volume
  }

  /** The Docker volumes a container mounts. */
  function Bound(l: Labels): set<string> {
    match l.specHash
    case NoHash => {}
    case HashOf(input) => set m | m in input.mounts && m.kind.Ephemeral? :: VolumeName(l.project, m.name)
  }

  const NO_LABELS := Labels("", None, "", "", None, NoHash)

  /** A volume a container needs and does not find is made empty, without labels,
      when the container is made and when it is started. */
  function Provided(volumes: map<string, Labels>, l: Labels): (r: map<string, Labels>)
    ensures forall v :: v in volumes ==> v in r && r[v] == volumes[v]
    ensures Bound(l) <= volumes.Keys ==> r == volumes
  {
    (map v | v in Bound(l) :: NO_LABELS) + volumes
  }

  /** The assignment a container must belong to; without a generation, any
      assignment of the lifetime. */
  datatype Owner = Owner(namespace: string, project: string, uid: string, generation: Option<int>)

  function ServiceOf(l: Labels): string {
    if l.service.Some? then l.service.value else ""
  }

  predicate Mine(l: Labels, owner: Owner) {
    && l.project == owner.project && l.namespace == owner.namespace && l.uid == owner.uid
    && (owner.generation.Some? ==> l.generation == owner.generation)
  }

  /** The five-label ownership check. */
  predicate Owned(l: Labels, owner: Owner, service: string) {
    Mine(l, owner) && ServiceOf(l) == service
  }

  /** Every effect on the daemon. `Outside` is anything done by others. */
  datatype Effect =
    | Outside(after: State)
    | CreateContainer(name: string, container: Container)
    | SetStatus(name: string, status: Status)
    | RemoveContainer(name: string)
    | CreateNetwork(name: string, labels: Labels)
    | RemoveNetwork(name: string)
    | CreateVolume(name: string, labels: Labels)
    | RemoveVolume(name: string)

  /** A container keeps its name and labels, and an ID never comes back. */
  predicate SameContainers(a: State, b: State) {
    && a.nextID <= b.nextID
    && forall n :: n in b.containers && b.containers[n].id < a.nextID ==>
         Here(a, n, b.containers[n].id) && b.containers[n].labels == a.containers[n].labels
  }

  /** Others may make, stop and remove containers of any assignment, this one's
      included. */
  predicate Persists(a: State, b: State) {
    b.networks == a.networks && b.volumes == a.volumes && SameContainers(a, b)
  }

  predicate Can(d: State, e: Effect) {
    match e
    case Outside(after) => Persists(d, after) && Sound(after)
    case CreateContainer(n, c) => c.id == d.nextID && n !in d.containers
    case SetStatus(n, _) => n in d.containers
    case CreateNetwork(n, _) => n !in d.networks
    case CreateVolume(v, _) => v !in d.volumes
    case _ => true
  }

  function Next(d: State, e: Effect): State
    requires Can(d, e)
  {
    match e
    case Outside(after) => after
    case CreateContainer(n, c) =>
      d.(containers := d.containers[n := c], nextID := d.nextID + 1, volumes := Provided(d.volumes, c.labels))
    case SetStatus(n, s) =>
      d.(containers := d.containers[n := d.containers[n].(status := s)],
      volumes := if s.Running? then Provided(d.volumes, d.containers[n].labels) else d.volumes)
    case RemoveContainer(n) => d.(containers := d.containers - {n})
    case CreateNetwork(n, l) => d.(networks := d.networks[n := l])
    case RemoveNetwork(n) => d.(networks := d.networks - {n})
    case CreateVolume(v, l) => d.(volumes := d.volumes[v := l])
    case RemoveVolume(v) => d.(volumes := d.volumes - {v})
  }

  predicate IsRun(trace: seq<State>, effects: seq<Effect>) {
    && |trace| == |effects| + 1
    && forall i {:trigger effects[i]} :: 0 <= i < |effects| ==> Can(trace[i], effects[i]) && trace[i + 1] == Next(trace[i], effects[i])
  }

  /** An effect of `owner`'s agent that keeps to what is the assignment's: it
      makes and changes only containers that carry the assignment's labels, and
      networks and volumes that carry its UID. */
  predicate Respects(d: State, e: Effect, owner: Owner) {
    match e
    case Outside(_) => true
    case CreateContainer(_, c) => Mine(c.labels, owner)
    case SetStatus(n, _) => n in d.containers ==> Mine(d.containers[n].labels, owner)
    case RemoveContainer(n) => n in d.containers ==> Mine(d.containers[n].labels, owner)
    case CreateNetwork(n, l) => l.uid == owner.uid
    case RemoveNetwork(n) => n in d.networks ==> d.networks[n].uid == owner.uid
    case CreateVolume(v, l) => l.uid == owner.uid
    case RemoveVolume(v) => v in d.volumes ==> d.volumes[v].uid == owner.uid
  }

  /** Nothing of anyone else's is changed between `a` and `b`. */
  ghost predicate LeavesOthers(a: State, b: State, owner: Owner) {
    && (forall n :: n in a.containers && !Mine(a.containers[n].labels, owner) ==>
          n in b.containers && b.containers[n] == a.containers[n])
    && (forall n :: n in a.networks && a.networks[n].uid != owner.uid ==> n in b.networks && b.networks[n] == a.networks[n])
    && (forall v :: v in a.volumes && a.volumes[v].uid != owner.uid ==> v in b.volumes && b.volumes[v] == a.volumes[v])
  }

  lemma RunGrows(trace: seq<State>, effects: seq<Effect>, e: Effect)
    requires IsRun(trace, effects) && Can(trace[|effects|], e)
    ensures IsRun(trace + [Next(trace[|effects|], e)], effects + [e])
  {
  }

  datatype Inspected = Found(container: Container) | NotFound | InspectFailed

  datatype Looked = Present(labels: Labels) | Missing | LookFailed

  datatype Outcome = Done | Gone | Failed

  /** What an operation has done so far, at most: the services whose containers
      it made or changed, whether it removed a network or volume, whether it made
      a volume, and whether starting a container did. */
  datatype Account = Account(
    owner: Owner, touched: set<string>, sharedRemoved: bool, volumesMade: bool, volumesByStart: bool)

  predicate May(a: Account, l: Labels) {
    Mine(l, a.owner) && ServiceOf(l) in a.touched
  }

  predicate Covers(a: Account, d: State, e: Effect) {
    && Respects(d, e, a.owner)
    && (match e
        case CreateContainer(_, c) => May(a, c.labels) && (a.volumesMade || Bound(c.labels) <= d.volumes.Keys)
        case SetStatus(n, s) =>
          n in d.containers ==>
            && May(a, d.containers[n].labels)
            && (!s.Running? || a.volumesByStart || Bound(d.containers[n].labels) <= d.volumes.Keys)
        case RemoveContainer(n) => n in d.containers ==> May(a, d.containers[n].labels)
        case RemoveNetwork(_) => a.sharedRemoved
        case RemoveVolume(_) => a.sharedRemoved
        case CreateVolume(_, _) => a.volumesMade
        case _ => true)
  }

  /** `b` accounts for all that `a` does. */
  predicate Includes(b: Account, a: Account) {
    && b.owner == a.owner && a.touched <= b.touched
    && (a.sharedRemoved ==> b.sharedRemoved) && (a.volumesMade ==> b.volumesMade)
    && (a.volumesByStart ==> b.volumesByStart)
  }

  /** `a` covers every effect from `since` on. */
  ghost predicate Accounted(a: Account, trace: seq<State>, effects: seq<Effect>, since: nat)
    requires |trace| == |effects| + 1
  {
    forall i {:trigger effects[i]} :: since <= i < |effects| ==> Covers(a, trace[i], effects[i])
  }

  /** What an account says of the networks and volumes between `x` and `y`: those of
      another UID are as they were, and so are all if none was removed; none is
      new if none was made. */
  ghost predicate SharedWithin(a: Account, x: State, y: State) {
    && (forall n :: n in x.networks && (x.networks[n].uid != a.owner.uid || !a.sharedRemoved) ==>
          n in y.networks && y.networks[n] == x.networks[n])
    && (forall v :: v in x.volumes && (x.volumes[v].uid != a.owner.uid || !a.sharedRemoved) ==>
          v in y.volumes && y.volumes[v] == x.volumes[v])
    && (!a.volumesMade && !a.volumesByStart ==> y.volumes.Keys <= x.volumes.Keys)
  }

  /** ... and of the containers: those of another assignment, or of a service not
      touched, are as they were, and no such container is new. */
  ghost predicate ContainersWithin(a: Account, x: State, y: State) {
    && (forall n :: n in x.containers && !May(a, x.containers[n].labels) ==> n in y.containers && y.containers[n] == x.containers[n])
    && (forall n :: n in y.containers && !May(a, y.containers[n].labels) ==> n in x.containers && y.containers[n] == x.containers[n])
  }

  lemma EffectStaysWithin(a: Account, d: State, e: Effect)
    requires Can(d, e) && Covers(a, d, e)
    ensures SharedWithin(a, d, Next(d, e))
    ensures !e.Outside? ==> ContainersWithin(a, d, Next(d, e))
  {
  }

  /** Whatever others do to containers meanwhile, the networks and volumes end
      within the account. */
  lemma {:induction false} SharedThingsStayWithin(a: Account, trace: seq<State>, effects: seq<Effect>, since: nat, n: nat)
    requires IsRun(trace, effects) && Accounted(a, trace, effects, since) && since <= n <= |effects|
    ensures SharedWithin(a, trace[since], trace[n])
    decreases n
  {
    if since < n {
      SharedThingsStayWithin(a, trace, effects, since, n - 1);
      EffectStaysWithin(a, trace[n - 1], effects[n - 1]);
      SharedComposes(a, trace[since], trace[n - 1], trace[n]);
    }
  }

  lemma SharedComposes(a: Account, x: State, y: State, z: State)
    requires SharedWithin(a, x, y) && SharedWithin(a, y, z)
    ensures SharedWithin(a, x, z)
  {
  }

  /** With nobody else acting, so do the containers. */
  lemma {:induction false} ContainersStayWithin(a: Account, trace: seq<State>, effects: seq<Effect>, since: nat, n: nat)
    requires IsRun(trace, effects) && Accounted(a, trace, effects, since) && since <= n <= |effects|
    requires forall i :: since <= i < n ==> !effects[i].Outside?
    ensures ContainersWithin(a, trace[since], trace[n])
    decreases n
  {
    if since < n {
      ContainersStayWithin(a, trace, effects, since, n - 1);
      EffectStaysWithin(a, trace[n - 1], effects[n - 1]);
      ContainersCompose(a, trace[since], trace[n - 1], trace[n]);
    }
  }

  lemma ContainersCompose(a: Account, x: State, y: State, z: State)
    requires ContainersWithin(a, x, y) && ContainersWithin(a, y, z)
    ensures ContainersWithin(a, x, z)
  {
  }

  lemma CoversMore(b: Account, a: Account, d: State, e: Effect)
    requires Includes(b, a) && Covers(a, d, e)
    ensures Covers(b, d, e)
  {
  }

  lemma AccountGrows(
    a: Account, b: Account, trace: seq<State>, effects: seq<Effect>, since: nat, d: State, e: Effect)
    requires |trace| == |effects| + 1 && Accounted(a, trace, effects, since)
    requires Includes(b, a) && Covers(b, trace[|effects|], e)
    ensures Accounted(b, trace + [d], effects + [e], since)
  {
  }

  /** The daemon behind its API. While it is not `quiet`, others act on it
      between any two calls. `account` covers every effect since the operation
      under way began. */
  class Daemon {
    const quiet: bool
    var d: State
    ghost var trace: seq<State>
    ghost var effects: seq<Effect>
    ghost var since: nat
    ghost var account: Account

    ghost predicate Valid()
      reads this
    {
      && IsRun(trace, effects) && trace[|effects|] == d && Sound(d) && since <= |effects|
      && Accounted(account, trace, effects, since)
      && (quiet ==> forall i :: since <= i < |effects| ==> !effects[i].Outside?)
    }

    constructor (d: State, quiet: bool)
      requires Sound(d)
      ensures Valid() && this.d == d && this.quiet == quiet && effects == []
    {
      this.d := d;
      this.quiet := quiet;
      trace := [d];
      effects := [];
      since := 0;
      account := Account(Owner("", "", "", None), {}, false, false, false);
    }

    /** An operation of `owner` begins. */
    ghost method Begin(owner: Owner)
      requires Valid()
      modifies this`since, this`account
      ensures Valid() && since == |effects| && account == Account(owner, {}, false, false, false)
    {
      since := |effects|;
      account := Account(owner, {}, false, false, false);
    }

    /** The log only grows, and the operation under way stays the same. */
    twostate predicate Grows()
      reads this
    {
      && old(trace) <= trace && old(effects) <= effects && since == old(since)
      && Includes(account, old(account)) && old(d).nextID <= d.nextID
    }

    method Act(e: Effect, ghost after: Account)
      requires Valid() && Can(d, e) && Includes(after, account) && Covers(after, d, e)
      requires Sound(Next(d, e)) && d.nextID <= Next(d, e).nextID && (quiet ==> !e.Outside?)
      modifies this
      ensures Valid() && Grows() && d == Next(old(d), e) && account == after && effects == old(effects) + [e]
      ensures trace == old(trace) + [d]
    {
      RunGrows(trace, effects, e);
      AccountGrows(account, after, trace, effects, since, Next(d, e), e);
      d := Next(d, e);
      trace := trace + [d];
      effects := effects + [e];
      account := after;
    }

    /** Others act, unless the daemon is quiet. */
    method Interfere()
      requires Valid()
      modifies this
      ensures Valid() && Grows() && Persists(old(d), d) && (quiet ==> d == old(d)) && account == old(account)
    {
      if !quiet {
        var after: State := *;
        if Persists(d, after) && Sound(after) {
          Act(Outside(after), account);
        }
      }
    }

    method Inspect(name: string) returns (r: Inspected)
      requires Valid()
      modifies this
      ensures Valid() && Grows() && Persists(old(d), d) && (quiet ==> d == old(d)) && account == old(account)
      ensures r.Found? ==> name in d.containers && d.containers[name] == r.container
      ensures r.NotFound? ==> name !in d.containers
    {
      Interfere();
      var answered: bool := *;
      return if !answered then InspectFailed else if name in d.containers then Found(d.containers[name]) else NotFound;
    }

    /** Every container there is; callers filter by label. */
    method List() returns (ok: bool, found: map<string, Container>)
      requires Valid()
      modifies this
      ensures Valid() && Grows() && Persists(old(d), d) && (quiet ==> d == old(d)) && account == old(account)
      ensures ok ==> found == d.containers
    {
      Interfere();
      ok := *;
      found := d.containers;
    }

    /** A start that had to make a volume is the latest effect. */
    ghost predicate StartMadeVolume(name: string)
      reads this
      requires |trace| == |effects| + 1
    {
      var last := |effects| - 1;
      && last >= 0 && effects[last] == SetStatus(name, Running)
      && name in trace[last].containers && name in d.containers
      && trace[last].containers[name].labels == d.containers[name].labels
      && !(Bound(d.containers[name].labels) <= trace[last].volumes.Keys)
    }

    /** Starts the container with this ID, if it is still there. */
    method Start(name: string, id: nat) returns (r: Outcome)
      requires Valid() && id < d.nextID && (Here(d, name, id) ==> May(account, d.containers[name].labels))
      modifies this
      ensures Valid() && Grows() && d.networks == old(d).networks && SameContainers(old(d), d)
      ensures account == old(account).(volumesByStart := account.volumesByStart)
      ensures Here(old(d), name, id) && Bound(old(d).containers[name].labels) <= old(d).volumes.Keys ==> account == old(account)
      ensures forall v :: v in old(d).volumes ==> v in d.volumes && d.volumes[v] == old(d).volumes[v]
      ensures quiet ==> d.containers == old(d).containers || Becomes(old(d), d, name, id, Running)
      ensures quiet ==> d.containers - {name} == old(d).containers - {name}
      ensures account != old(account) ==> |effects| > |old(effects)| && StartMadeVolume(name) && Here(d, name, id)
      ensures r.Done? ==> Here(d, name, id) && d.containers[name].status.Running?
    {
      Interfere();
      if !Here(d, name, id) {
        return Gone;
      }
      var reached, done: bool := *, *;
      if reached || done {
        SetRunning(name);
      }
      return if done then Done else Failed;
    }

    method SetRunning(name: string)
      requires Valid() && name in d.containers && May(account, d.containers[name].labels)
      modifies this
      ensures Valid() && Grows() && effects == old(effects) + [SetStatus(name, Running)]
      ensures d.networks == old(d).networks && d.nextID == old(d).nextID
      ensures Becomes(old(d), d, name, old(d).containers[name].id, Running)
      ensures d.volumes == Provided(old(d).volumes, old(d).containers[name].labels)
      ensures account == old(account).(volumesByStart := account.volumesByStart)
      ensures account != old(account) ==> StartMadeVolume(name)
      ensures Bound(old(d).containers[name].labels) <= old(d).volumes.Keys ==> account == old(account)
    {
      Act(SetStatus(name, Running),
          account.(volumesByStart := account.volumesByStart || !(Bound(d.containers[name].labels) <= d.volumes.Keys)));
    }

    method Stop(name: string, id: nat) returns (r: Outcome)
      requires Valid() && id < d.nextID && (Here(d, name, id) ==> May(account, d.containers[name].labels))
      modifies this
      ensures Valid() && Grows() && account == old(account) && Persists(old(d), d)
      ensures quiet ==> d.nextID == old(d).nextID
      ensures quiet ==> d.containers == old(d).containers || Becomes(old(d), d, name, id, Exited)
      ensures quiet ==> d.containers - {name} == old(d).containers - {name}
      ensures r.Done? ==> Here(d, name, id) && d.containers[name].status.Exited?
      ensures r.Gone? ==> !Here(d, name, id)
    {
      Interfere();
      if !Here(d, name, id) {
        return Gone;
      }
      var reached, done: bool := *, *;
      if reached || done {
        Act(SetStatus(name, Exited), account);
      }
      return if done then Done else Failed;
    }

    /** Removes the container with this ID; without `force`, not while it runs. */
    method Remove(name: string, id: nat, force: bool) returns (r: Outcome)
      requires Valid() && id < d.nextID && (Here(d, name, id) ==> May(account, d.containers[name].labels))
      modifies this
      ensures Valid() && Grows() && account == old(account) && Persists(old(d), d)
      ensures quiet ==> d.nextID == old(d).nextID
      ensures quiet ==>
                d.containers == old(d).containers || (Here(old(d), name, id) && d.containers == old(d).containers - {name})
      ensures quiet ==> d.containers - {name} == old(d).containers - {name}
      ensures !r.Failed? ==> !Here(d, name, id)
    {
      Interfere();
      if !Here(d, name, id) {
        return Gone;
      }
      if !force && Up(d.containers[name].status) {
        return Failed;
      }
      var reached, done: bool := *, *;
      if reached || done {
        Act(RemoveContainer(name), account);
      }
      return if done then Done else Failed;
    }

    method Create(name: string, labels: Labels) returns (r: Outcome, id: nat)
      requires Valid() && May(account, labels)
      modifies this
      ensures Valid() && Grows() && d.networks == old(d).networks && SameContainers(old(d), d)
      ensures account == old(account).(volumesMade := account.volumesMade)
      ensures Bound(labels) <= old(d).volumes.Keys ==> account == old(account) && d.volumes == old(d).volumes
      ensures forall v :: v in old(d).volumes ==> v in d.volumes && d.volumes[v] == old(d).volumes[v]
      ensures quiet ==>
                || d.containers == old(d).containers
                || (name !in old(d).containers && d.containers == old(d).containers[name := Container(id, labels, Created)])
      ensures quiet ==> d.containers - {name} == old(d).containers - {name}
      ensures r.Done? ==> name in d.containers && d.containers[name] == Container(id, labels, Created)
      ensures r.Done? ==> Bound(labels) <= d.volumes.Keys
    {
      Interfere();
      id := d.nextID;
      if name in d.containers {
        return Failed, id;
      }
      var reached, done: bool := *, *;
      if reached || done {
        Act(CreateContainer(name, Container(id, labels, Created)),
            account.(volumesMade := account.volumesMade || !(Bound(labels) <= d.volumes.Keys)));
      }
      return if done then Done else Failed, id;
    }

    method LookAtNetwork(n: string) returns (r: Looked)
      requires Valid()
      modifies this
      ensures Valid() && Grows() && Persists(old(d), d) && (quiet ==> d == old(d)) && account == old(account)
      ensures r.Present? ==> n in d.networks && d.networks[n] == r.labels
      ensures r.Missing? ==> n !in d.networks
    {
      Interfere();
      var answered: bool := *;
      return if !answered then LookFailed else if n in d.networks then Present(d.networks[n]) else Missing;
    }

    method LookAtVolume(v: string) returns (r: Looked)
      requires Valid()
      modifies this
      ensures Valid() && Grows() && Persists(old(d), d) && (quiet ==> d == old(d)) && account == old(account)
      ensures r.Present? ==> v in d.volumes && d.volumes[v] == r.labels
      ensures r.Missing? ==> v !in d.volumes
    {
      Interfere();
      var answered: bool := *;
      return if !answered then LookFailed else if v in d.volumes then Present(d.volumes[v]) else Missing;
    }

    /** Every volume there is; callers filter by label. */
    method ListVolumes() returns (ok: bool, found: map<string, Labels>)
      requires Valid()
      modifies this
      ensures Valid() && Grows() && Persists(old(d), d) && (quiet ==> d == old(d)) && account == old(account)
      ensures ok ==> found == d.volumes
    {
      Interfere();
      ok := *;
      found := d.volumes;
    }

    method MakeNetwork(n: string, labels: Labels) returns (r: Outcome)
      requires Valid() && labels.uid == account.owner.uid && n !in d.networks
      modifies this
      ensures Valid() && Grows() && account == old(account)
      ensures d.volumes == old(d).volumes && SameContainers(old(d), d)
      ensures d.networks == old(d).networks || d.networks == old(d).networks[n := labels]
      ensures quiet ==> d.containers == old(d).containers
      ensures r.Done? ==> d.networks == old(d).networks[n := labels]
    {
      Interfere();
      var reached, done: bool := *, *;
      if reached || done {
        Act(CreateNetwork(n, labels), account);
      }
      return if done then Done else Failed;
    }

    method MakeVolume(v: string, labels: Labels) returns (r: Outcome)
      requires Valid() && labels.uid == account.owner.uid && v !in d.volumes
      modifies this
      ensures Valid() && Grows() && account == old(account).(volumesMade := account.volumesMade)
      ensures d.networks == old(d).networks && SameContainers(old(d), d)
      ensures d.volumes == old(d).volumes || d.volumes == old(d).volumes[v := labels]
      ensures quiet ==> d.containers == old(d).containers
      ensures r.Done? ==> d.volumes == old(d).volumes[v := labels]
    {
      Interfere();
      var reached, done: bool := *, *;
      if reached || done {
        Act(CreateVolume(v, labels), account.(volumesMade := true));
      }
      return if done then Done else Failed;
    }

    method DropNetwork(n: string) returns (r: Outcome)
      requires Valid() && (n in d.networks ==> d.networks[n].uid == account.owner.uid)
      modifies this
      ensures Valid() && Grows() && account == old(account).(sharedRemoved := account.sharedRemoved)
      ensures d.volumes == old(d).volumes && SameContainers(old(d), d)
      ensures d.networks == old(d).networks || d.networks == old(d).networks - {n}
      ensures quiet ==> d.containers == old(d).containers && d.nextID == old(d).nextID
      ensures !r.Failed? ==> d.networks == old(d).networks - {n}
    {
      Interfere();
      if n !in d.networks {
        return Gone;
      }
      var reached, done: bool := *, *;
      if reached || done {
        Act(RemoveNetwork(n), account.(sharedRemoved := true));
      }
      return if done then Done else Failed;
    }

    method DropVolume(v: string) returns (r: Outcome)
      requires Valid() && (v in d.volumes ==> d.volumes[v].uid == account.owner.uid)
      modifies this
      ensures Valid() && Grows() && account == old(account).(sharedRemoved := account.sharedRemoved)
      ensures d.networks == old(d).networks && SameContainers(old(d), d)
      ensures d.volumes == old(d).volumes || d.volumes == old(d).volumes - {v}
      ensures quiet ==> d.containers == old(d).containers && d.nextID == old(d).nextID
      ensures !r.Failed? ==> d.volumes == old(d).volumes - {v}
    {
      Interfere();
      if v !in d.volumes {
        return Gone;
      }
      var reached, done: bool := *, *;
      if reached || done {
        Act(RemoveVolume(v), account.(sharedRemoved := true));
      }
      return if done then Done else Failed;
    }

    /** The caller is about to change containers of `service`. */
    ghost method Touch(service: string)
      requires Valid()
      modifies this`account
      ensures Valid() && account == old(account).(touched := old(account).touched + {service})
    {
      forall i | since <= i < |effects|
        ensures Covers(account.(touched := account.touched + {service}), trace[i], effects[i])
      {
        CoversMore(account.(touched := account.touched + {service}), account, trace[i], effects[i]);
      }
      account := account.(touched := account.touched + {service});
    }
  }

  /** What every operation's account comes to: between its beginning and now, no
      network or volume of another UID has changed, and on a quiet daemon no
      container of another assignment or of a service it did not touch. */
  lemma OperationStaysWithin(daemon: Daemon)
    requires daemon.Valid()
    ensures SharedWithin(daemon.account, daemon.trace[daemon.since], daemon.d)
    ensures daemon.quiet ==> ContainersWithin(daemon.account, daemon.trace[daemon.since], daemon.d)
  {
    var n := |daemon.effects|;
    SharedThingsStayWithin(daemon.account, daemon.trace, daemon.effects, daemon.since, n);
    if daemon.quiet {
      ContainersStayWithin(daemon.account, daemon.trace, daemon.effects, daemon.since, n);
    }
  }
}
