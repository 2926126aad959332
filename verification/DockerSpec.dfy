/** A Project's spec as the runtime reads it, the hash its containers are
    labelled with, and the copy whose Secret references have been resolved. */
module DockerSpec {
  import opened Docker

  datatype SecretRef = SecretRef(name: string, key: string)

  datatype EnvVar = EnvVar(name: string, value: string, ref: Option<SecretRef>)

  datatype Mount = Mount(name: string, path: string)

  datatype Service = Service(name: string, image: string, command: seq<string>, env: seq<EnvVar>, mounts: seq<Mount>)

  datatype Volume = Volume(name: string, kind: VolumeType)

  datatype Spec = Spec(services: seq<Service>, volumes: seq<Volume>, restartedAt: Option<int>)

  datatype Project = Project(namespace: string, name: string, uid: string, generation: int, spec: Spec)

  function OwnerOf(p: Project): Owner {
    Owner(p.namespace, p.name, p.uid, Some(p.generation))
  }

  function ContainerName(project: string, service: string): string {
    project + "-" + service
  }

  function NetworkName(project: string): string {
    "cara-" + project
  }

  /** API validation refuses two services of one name. */
  predicate DistinctServices(p: Project) {
    forall i, j :: 0 <= i < j < |p.spec.services| ==> p.spec.services[i].name != p.spec.services[j].name
  }

  /** The type of the volume of this name; the last declaration wins. */
  function TypeOf(volumes: seq<Volume>, name: string): (r: Option<VolumeType>)
    ensures r.None? <==> forall v :: v in volumes ==> v.name != name
  {
    if volumes == [] then None
    else
      var last := volumes[|volumes| - 1];
      if last.name == name then Some(last.kind) else TypeOf(volumes[..|volumes| - 1], name)
  }

  function KindOf(volumes: seq<Volume>, name: string): VolumeType {
    var t := TypeOf(volumes, name);
    if t.Some? then t.value else Unknown("")
  }

  function HashOfEnv(e: EnvVar): EnvHash {
    if e.ref.Some? then FromSecret(e.name, e.ref.value.name, e.ref.value.key) else FromValue(e.name, e.value)
  }

  function HashOfMount(volumes: seq<Volume>, m: Mount): MountHash {
    MountHash(m.name, m.path, KindOf(volumes, m.name))
  }

  function ServiceSpecHash(svc: Service, spec: Spec): Hash {
    HashOf(HashInput(
      svc.image,
      svc.command,
      seq(|svc.env|, i requires 0 <= i < |svc.env| => HashOfEnv(svc.env[i])),
      seq(|svc.mounts|, i requires 0 <= i < |svc.mounts| => HashOfMount(spec.volumes, svc.mounts[i])),
      spec.restartedAt))
  }

  /** The same variable, or the same Secret key whatever its value. */
  predicate SameEnv(a: EnvVar, b: EnvVar) {
    a.name == b.name && a.ref == b.ref && (a.ref.None? ==> a.value == b.value)
  }

  /** Two services hash alike exactly when their containers would be built alike,
      but for the values of Secrets. */
  lemma HashSeesAllButSecretValues(a: Service, s: Spec, b: Service, t: Spec)
    ensures ServiceSpecHash(a, s) == ServiceSpecHash(b, t) <==>
      && a.image == b.image && a.command == b.command && s.restartedAt == t.restartedAt
      && |a.env| == |b.env| && (forall i :: 0 <= i < |a.env| ==> SameEnv(a.env[i], b.env[i]))
      && a.mounts == b.mounts
      && forall m :: m in a.mounts ==> KindOf(s.volumes, m.name) == KindOf(t.volumes, m.name)
  {
    var h, k := ServiceSpecHash(a, s).input, ServiceSpecHash(b, t).input;
    assert forall i :: 0 <= i < |a.env| ==> h.env[i] == HashOfEnv(a.env[i]);
    assert forall i :: 0 <= i < |b.env| ==> k.env[i] == HashOfEnv(b.env[i]);
    assert forall i :: 0 <= i < |a.mounts| ==> h.mounts[i] == HashOfMount(s.volumes, a.mounts[i]);
    assert forall i :: 0 <= i < |b.mounts| ==> k.mounts[i] == HashOfMount(t.volumes, b.mounts[i]);
    if h.env == k.env {
      forall i | 0 <= i < |a.env| ensures SameEnv(a.env[i], b.env[i]) {
        assert h.env[i] == k.env[i];
      }
    }
    if h.mounts == k.mounts {
      forall i | 0 <= i < |a.mounts|
        ensures a.mounts[i] == b.mounts[i] && KindOf(s.volumes, a.mounts[i].name) == KindOf(t.volumes, a.mounts[i].name)
      {
        assert h.mounts[i] == k.mounts[i];
      }
    }
  }

  /** What the server answers for a Secret, the same for the whole call since it
      is fetched at most once. */
  datatype Fetched = Data(items: seq<(string, string)>) | Absent | Unreachable

  function ValueIn(items: seq<(string, string)>, key: string): (r: Option<string>)
    ensures r.None? <==> forall i :: i in items ==> i.0 != key
  {
    if items == [] then None else if items[0].0 == key then Some(items[0].1) else ValueIn(items[1..], key)
  }

  function Lookup(fetch: string -> Fetched, ref: SecretRef): Option<string> {
    var f := fetch(ref.name);
    if f.Data? then ValueIn(f.items, ref.key) else None
  }

  /** `e` with the value of its Secret next to the reference. */
  predicate EnvResolved(fetch: string -> Fetched, e: EnvVar, r: EnvVar) {
    if e.ref.None? then r == e
    else Lookup(fetch, e.ref.value).Some? && r == e.(value := Lookup(fetch, e.ref.value).value)
  }

  predicate ServiceResolved(fetch: string -> Fetched, s: Service, r: Service) {
    && r == s.(env := r.env) && |r.env| == |s.env|
    && forall i :: 0 <= i < |s.env| ==> EnvResolved(fetch, s.env[i], r.env[i])
  }

  predicate ProjectResolved(fetch: string -> Fetched, included: set<string>, p: Project, r: Project) {
    && r == p.(spec := p.spec.(services := r.spec.services)) && |r.spec.services| == |p.spec.services|
    && forall i :: 0 <= i < |p.spec.services| ==>
         var s, t := p.spec.services[i], r.spec.services[i];
         if s.name in included then ServiceResolved(fetch, s, t) else t == s
  }

  /** Some Secret, or key of one, that an included service needs is not there. */
  predicate Unresolvable(fetch: string -> Fetched, included: set<string>, services: seq<Service>) {
    exists i, j :: 0 <= i < |services| && 0 <= j < |services[i].env| && services[i].name in included
                   && services[i].env[j].ref.Some? && Lookup(fetch, services[i].env[j].ref.value).None?
  }

  method ResolveService(fetch: string -> Fetched, s: Service) returns (ok: bool, r: Service)
    ensures ok ==> ServiceResolved(fetch, s, r)
    ensures !ok ==> exists j :: 0 <= j < |s.env| && s.env[j].ref.Some? && Lookup(fetch, s.env[j].ref.value).None?
  {
    var env := [];
    r := s;
    for j := 0 to |s.env|
      invariant |env| == j && forall i :: 0 <= i < j ==> EnvResolved(fetch, s.env[i], env[i])
    {
      var e := s.env[j];
      if e.ref.Some? {
        var v := Lookup(fetch, e.ref.value);
        if v.None? {
          return false, s;
        }
        e := e.(value := v.value);
      }
      env := env + [e];
    }
    return true, s.(env := env);
  }

  /** Fails exactly when something an included service references is not there;
      other services are never looked at. */
  method ResolveSecretsFor(fetch: string -> Fetched, p: Project, included: set<string>) returns (ok: bool, r: Project)
    ensures ok ==> ProjectResolved(fetch, included, p, r)
    ensures ok <==> !Unresolvable(fetch, included, p.spec.services)
  {
    var services := [];
    r := p;
    for i := 0 to |p.spec.services|
      invariant |services| == i
      invariant forall k :: 0 <= k < i ==>
        var s, t := p.spec.services[k], services[k];
        if s.name in included then ServiceResolved(fetch, s, t) else t == s
    {
      var s := p.spec.services[i];
      if s.name in included {
        var resolved;
        ok, resolved := ResolveService(fetch, s);
        if !ok {
          assert s.name in included && s == p.spec.services[i];
          return;
        }
        services := services + [resolved];
      } else {
        services := services + [s];
      }
    }
    ok := true;
    r := p.(spec := p.spec.(services := services));
    forall i, j | 0 <= i < |p.spec.services| && 0 <= j < |p.spec.services[i].env| && p.spec.services[i].name in included
      ensures p.spec.services[i].env[j].ref.None? || Lookup(fetch, p.spec.services[i].env[j].ref.value).Some?
    {
      assert ServiceResolved(fetch, p.spec.services[i], services[i]);
      assert EnvResolved(fetch, p.spec.services[i].env[j], services[i].env[j]);
    }
  }

  /** The hash of the resolved and of the declared spec are the same, so resolving
      Secrets never makes a container look outdated. */
  lemma ResolvingKeepsHashes(fetch: string -> Fetched, included: set<string>, p: Project, r: Project, i: nat)
    requires ProjectResolved(fetch, included, p, r) && i < |p.spec.services|
    ensures ServiceSpecHash(r.spec.services[i], r.spec) == ServiceSpecHash(p.spec.services[i], p.spec)
    ensures r.spec.services[i].name == p.spec.services[i].name
  {
  }
}
