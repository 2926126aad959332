/** The proxy's route table: two maps, by host and by project, that must agree. */
module Routes {

  datatype Option<T> = None | Some(value: T)

  datatype Ingress = Ingress(host: string, service: string, port: int)

  datatype Backend = Backend(ip: string, port: int)

  type Backends = map<string, Backend>

  /** A host without a dot is put under the project's own name. */
  function ResolveHost(host: string, project: string): string {
    if '.' in host then host else host + "." + project + ".local"
  }

  /** The hosts a project asks for and their backends; of two entries for one host
      the later counts. An ingress whose service has no address is skipped. */
  function RoutesOf(project: string, ingress: seq<Ingress>, ips: map<string, string>): Backends {
    if ingress == [] then map[]
    else
      var last := ingress[|ingress| - 1];
      var before := RoutesOf(project, ingress[..|ingress| - 1], ips);
      if last.service in ips then before[ResolveHost(last.host, project) := Backend(ips[last.service], last.port)] else before
  }

  datatype Table = Table(routes: Backends, listed: map<string, seq<string>>)

  function Hosts(listing: seq<string>): set<string> {
    set h | h in listing
  }

  function HostsOf(t: Table, project: string): set<string> {
    if project in t.listed then Hosts(t.listed[project]) else {}
  }

  datatype Op = DoUpdate(project: string, ingress: seq<Ingress>, ips: map<string, string>) | DoRemove(project: string)

  /** What the project of `op` has routed afterwards. */
  function Wanted(op: Op): Backends {
    match op
    case DoUpdate(project, ingress, ips) => RoutesOf(project, ingress, ips)
    case DoRemove(_) => map[]
  }

  /** What `op` makes of a table: the project's listed hosts go, its new routes
      come, and its new hosts are listed. */
  predicate Does(t: Table, op: Op, next: Table) {
    && next.routes == t.routes - HostsOf(t, op.project) + Wanted(op)
    && next.listed - {op.project} == t.listed - {op.project}
    && HostsOf(next, op.project) == Wanted(op).Keys
    && (op.project in next.listed <==> Wanted(op) != map[])
  }

  lemma OneMoreRoute(routes: Backends, added: Backends, host: string, backend: Backend)
    ensures (routes + added)[host := backend] == routes + added[host := backend]
  {
  }

  class RouteTable {
    var routes: Backends
    var projectRoutes: map<string, seq<string>>

    function Contents(): Table
      reads this
    {
      Table(routes, projectRoutes)
    }

    constructor ()
      ensures Contents() == Table(map[], map[])
    {
      routes, projectRoutes := map[], map[];
    }

    method Remove(project: string)
      modifies this
      ensures routes == old(routes) - HostsOf(old(Contents()), project)
      ensures projectRoutes == old(projectRoutes) - {project}
      ensures Does(old(Contents()), DoRemove(project), Contents())
    {
      if project !in projectRoutes {
        return;
      }
      var hosts := projectRoutes[project];
      for i := 0 to |hosts|
        invariant routes == old(routes) - Hosts(hosts[..i]) && projectRoutes == old(projectRoutes)
      {
        routes := routes - {hosts[i]};
        assert hosts[..i + 1] == hosts[..i] + [hosts[i]];
      }
      assert hosts[..|hosts|] == hosts;
      projectRoutes := projectRoutes - {project};
    }

    method Add(project: string, ingress: seq<Ingress>, ips: map<string, string>) returns (hosts: seq<string>)
      modifies this`routes
      ensures routes == old(routes) + RoutesOf(project, ingress, ips)
      ensures Hosts(hosts) == RoutesOf(project, ingress, ips).Keys
      ensures hosts == [] <==> RoutesOf(project, ingress, ips) == map[]
    {
      hosts := [];
      for i := 0 to |ingress|
        invariant routes == old(routes) + RoutesOf(project, ingress[..i], ips)
        invariant Hosts(hosts) == RoutesOf(project, ingress[..i], ips).Keys
        invariant hosts == [] <==> RoutesOf(project, ingress[..i], ips) == map[]
      {
        var ing := ingress[i];
        assert ingress[..i + 1][..i] == ingress[..i] && ingress[..i + 1][i] == ing;
        if ing.service in ips {
          var host := ResolveHost(ing.host, project);
          var backend := Backend(ips[ing.service], ing.port);
          OneMoreRoute(old(routes), RoutesOf(project, ingress[..i], ips), host, backend);
          routes := routes[host := backend];
          assert Hosts(hosts + [host]) == Hosts(hosts) + {host};
          hosts := hosts + [host];
        }
      }
      assert ingress[..|ingress|] == ingress;
    }

    /** Whatever the project had before is replaced. */
    method Update(project: string, ingress: seq<Ingress>, ips: map<string, string>)
      modifies this
      ensures Does(old(Contents()), DoUpdate(project, ingress, ips), Contents())
    {
      Remove(project);
      var hosts := Add(project, ingress, ips);
      if |hosts| > 0 {
        projectRoutes := projectRoutes[project := hosts];
      }
    }

    /** A port is not part of the host. */
    method Lookup(host: string) returns (r: Option<Backend>)
      ensures var h := WithoutPort(host); r == if h in routes then Some(routes[h]) else None
    {
      var i := |host|;
      while i > 0 && host[i - 1] != ':'
        invariant 0 <= i <= |host| && ':' !in host[i..]
      {
        assert host[i - 1..] == [host[i - 1]] + host[i..];
        i := i - 1;
      }
      var h := if i > 0 then host[..i - 1] else host;
      WithoutPortIs(host, i);
      return if h in routes then Some(routes[h]) else None;
    }
  }

  /** What is before the last colon, if there is one. */
  function WithoutPort(host: string): string {
    if ':' !in host then host
    else if host[|host| - 1] == ':' then host[..|host| - 1]
    else WithoutPort(host[..|host| - 1])
  }

  lemma {:induction false} WithoutPortIs(host: string, i: nat)
    requires i <= |host| && ':' !in host[i..] && (i > 0 ==> host[i - 1] == ':')
    ensures WithoutPort(host) == if i > 0 then host[..i - 1] else host
    decreases |host|
  {
    if i > 0 && i < |host| {
      var front := host[..|host| - 1];
      assert host[|host| - 1] == host[i..][|host| - 1 - i];
      assert front[i..] == host[i..][..|host| - 1 - i];
      assert ':' in host && front[..i - 1] == host[..i - 1];
      WithoutPortIs(front, i);
    } else if i == 0 {
      assert host[i..] == host;
    }
  }

  // ------------------------------------------------ whole runs

  predicate IsRun(trace: seq<Table>, ops: seq<Op>) {
    && |trace| == |ops| + 1 && trace[0] == Table(map[], map[])
    && forall i :: 0 <= i < |ops| ==> Does(trace[i], ops[i], trace[i + 1])
  }

  /** The simple model: each project's routes are those of its latest operation. */
  function Latest(ops: seq<Op>, project: string): Backends {
    if ops == [] then map[]
    else if ops[|ops| - 1].project == project then Wanted(ops[|ops| - 1])
    else Latest(ops[..|ops| - 1], project)
  }

  /** No two projects have resolved to the same host. */
  ghost predicate NoConflict(ops: seq<Op>) {
    forall p, q :: p != q ==> Latest(ops, p).Keys !! Latest(ops, q).Keys
  }

  /** The table is what the latest operations ask for, and lists every host under
      the project it is routed for. */
  ghost predicate Agrees(t: Table, ops: seq<Op>) {
    && (forall p :: HostsOf(t, p) == Latest(ops, p).Keys)
    && (forall p, h :: h in Latest(ops, p) ==> h in t.routes && t.routes[h] == Latest(ops, p)[h])
    && (forall h :: h in t.routes ==> exists p :: h in Latest(ops, p))
  }

  /** As long as no two projects resolve to one host, the table agrees with the
      simple model after any operations. */
  lemma {:induction false} TableAgrees(trace: seq<Table>, ops: seq<Op>, n: nat)
    requires IsRun(trace, ops) && n <= |ops|
    requires forall i :: 0 <= i <= n ==> NoConflict(ops[..i])
    ensures Agrees(trace[n], ops[..n])
  {
    if n == 0 {
      assert ops[..n] == [];
    } else {
      TableAgrees(trace, ops, n - 1);
      assert ops[..n][..n - 1] == ops[..n - 1] && ops[..n][n - 1] == ops[n - 1];
      OpKeepsAgreement(trace[n - 1], ops[..n - 1], ops[n - 1], trace[n], ops[..n]);
    }
  }

  /** Nothing changes for a project but that of the operation. */
  lemma OthersAreListedAlike(t: Table, before: seq<Op>, op: Op, next: Table, p: string)
    requires Does(t, op, next) && p != op.project
    ensures Latest(before + [op], p) == Latest(before, p) && HostsOf(next, p) == HostsOf(t, p)
  {
    assert (before + [op])[..|before|] == before;
    assert p in next.listed <==> p in next.listed - {op.project};
    assert p in t.listed <==> p in t.listed - {op.project};
    if p in t.listed {
      assert (next.listed - {op.project})[p] == next.listed[p];
    }
  }

  /** ... and its routes stay, where no host is shared. */
  lemma OthersAreRoutedAlike(t: Table, before: seq<Op>, op: Op, next: Table, p: string)
    requires Agrees(t, before) && Does(t, op, next) && p != op.project
    requires NoConflict(before) && NoConflict(before + [op])
    ensures HostsOf(next, p) == Latest(before + [op], p).Keys
    ensures forall h :: h in Latest(before + [op], p) ==> h in next.routes && next.routes[h] == Latest(before + [op], p)[h]
  {
    OthersAreListedAlike(t, before, op, next, p);
    assert Latest(before + [op], op.project) == Wanted(op);
    assert Latest(before + [op], p).Keys !! Latest(before + [op], op.project).Keys;
    assert Latest(before, p).Keys !! Latest(before, op.project).Keys;
  }

  lemma {:induction false} OpKeepsAgreement(t: Table, before: seq<Op>, op: Op, next: Table, after: seq<Op>)
    requires Agrees(t, before) && Does(t, op, next) && NoConflict(before) && NoConflict(after)
    requires after == before + [op]
    ensures Agrees(next, after)
  {
    assert Latest(after, op.project) == Wanted(op);
    forall p
      ensures HostsOf(next, p) == Latest(after, p).Keys
      ensures forall h :: h in Latest(after, p) ==> h in next.routes && next.routes[h] == Latest(after, p)[h]
    {
      if p != op.project {
        OthersAreRoutedAlike(t, before, op, next, p);
      }
    }
    forall h | h in next.routes ensures exists p :: h in Latest(after, p) {
      RoutedForSomeone(t, before, op, next, h);
    }
  }

  lemma RoutedForSomeone(t: Table, before: seq<Op>, op: Op, next: Table, h: string)
    requires Agrees(t, before) && Does(t, op, next) && h in next.routes
    ensures exists p :: h in Latest(before + [op], p)
  {
    if h in Wanted(op) {
      assert h in Latest(before + [op], op.project);
    } else {
      assert h !in HostsOf(t, op.project);
      var p :| h in Latest(before, p);
      assert p != op.project;
      OthersAreListedAlike(t, before, op, next, p);
      assert h in Latest(before + [op], p);
    }
  }

  /** ... so every routed host is listed under exactly one project, and what is
      looked up is that project's latest backend. */
  lemma EveryHostHasOneProject(trace: seq<Table>, ops: seq<Op>, n: nat, h: string) returns (p: string)
    requires IsRun(trace, ops) && n <= |ops| && h in trace[n].routes
    requires forall i :: 0 <= i <= n ==> NoConflict(ops[..i])
    ensures h in HostsOf(trace[n], p) && forall q :: h in HostsOf(trace[n], q) ==> q == p
    ensures h in Latest(ops[..n], p) && trace[n].routes[h] == Latest(ops[..n], p)[h]
  {
    TableAgrees(trace, ops, n);
    p :| h in Latest(ops[..n], p);
    assert NoConflict(ops[..n]);
  }

  /** An operation on one project leaves another's route exactly if the host is not
      shared: not listed before, nor asked for now, unless with the same backend. A
      removal leaves all of them exactly if the two share none. */
  lemma OthersRoutesSurviveExactlyWhen(t: Table, op: Op, next: Table, q: string)
    requires Does(t, op, next) && q != op.project && HostsOf(t, q) <= t.routes.Keys
    ensures forall h :: h in HostsOf(t, q) ==>
              (h in next.routes && next.routes[h] == t.routes[h] <==>
               if h in Wanted(op) then Wanted(op)[h] == t.routes[h] else h !in HostsOf(t, op.project))
    ensures op.DoRemove? ==>
              ((forall h :: h in HostsOf(t, q) ==> h in next.routes) <==> HostsOf(t, q) !! HostsOf(t, op.project))
  {
  }

  /** A host that two projects ask for is lost with the first of them to go. */
  lemma ASharedHostIsLost()
    ensures exists trace: seq<Table>, ops: seq<Op> ::
              && IsRun(trace, ops) && |ops| == 3 && Latest(ops, "b") != map[]
              && Latest(ops, "b").Keys !! trace[3].routes.Keys
  {
    var ips := map["web" := "10.0.0.2"];
    var ing := [Ingress("x.example", "web", 80)];
    assert ing[..0] == [];
    var ops := [DoUpdate("a", ing, ips), DoUpdate("b", ing, ips), DoRemove("a")];
    var m: Backends := map["x.example" := Backend("10.0.0.2", 80)];
    assert "x.example" in m;
    assert RoutesOf("a", ing, ips) == m && RoutesOf("b", ing, ips) == m;
    var t1 := Table(m, map["a" := ["x.example"]]);
    var t2 := Table(m, map["a" := ["x.example"], "b" := ["x.example"]]);
    var t3 := Table(map[], map["b" := ["x.example"]]);
    var t0: Table := Table(map[], map[]);
    assert Does(t0, ops[0], t1);
    assert Does(t1, ops[1], t2);
    assert Does(t2, ops[2], t3);
    assert IsRun([t0, t1, t2, t3], ops);
    assert ops[..2] == [ops[0], ops[1]];
    assert Latest(ops, "b") == m;
  }

  /** Two projects, neither name with a dot, never get the same host from hosts
      without one: conflicts come from hosts written out in full. */
  lemma ShortHostsNeverConflict(a: string, p: string, b: string, q: string)
    requires '.' !in a && '.' !in b && '.' !in p && '.' !in q
    requires ResolveHost(a, p) == ResolveHost(b, q)
    ensures a == b && p == q
  {
    var h, k := ResolveHost(a, p), ResolveHost(b, q);
    assert h[|a|] == '.' && k[|b|] == '.';
    assert forall i :: 0 <= i < |a| ==> h[i] == a[i];
    assert forall i :: 0 <= i < |b| ==> k[i] == b[i];
    assert |a| == |b|;
    assert a == h[..|a|] && b == k[..|b|];
    assert p == h[|a| + 1..|h| - 6] && q == k[|b| + 1..|k| - 6];
  }
}
