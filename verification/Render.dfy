/** Rendering the proxy's HTTP routes (edge-ingress/src/caddy.rs, `render_routes`). A rendered route is
    a value: its id, what it matches, its handlers and whether it is terminal. */
module Render {
  import opened Common
  import opened Sorting
  import opened Routing

  datatype Matcher =
    | HostIs(host: string)
    | TenantHosts(tenant: string)   // host_regexp ^<tenant>-[^.]+\.<suffix>$
    | Everything
    | Ipv4
    | AnyIp

  datatype Upstream = Upstream(worker: string, port: u16, weight: Option<nat>)

  datatype Handler =
    | RateLimit(key: string, rps: nat, burst: nat)
    | ConcurrentCap(key: string, limit: nat)
    | BandwidthCap(key: string, bytesPerSec: nat)
    | ReverseProxy(upstreams: seq<Upstream>)
    | PaymentRequired

  datatype Route = Route(id: Option<string>, matcher: Matcher, handlers: seq<Handler>, terminal: bool)

  datatype TenantCap = TenantCap(tenant: string, rps: nat, burst: nat, concurrent: nat, bandwidth: nat)

  datatype Config = Config(
    rpsDefault: nat, burstDefault: nat, perIpRps: nat, perIpBurst: nat, globalRps: nat, globalBurst: nat,
        aggregation: bool)

  /** Configuration and caches as one push reads them. */
  datatype Inputs = Inputs(
    cfg: Config, weights: map<RouteKey, nat>, rateLimits: map<(string, string), (nat, nat)>,
    overCap: set<string>, tenantCaps: seq<TenantCap>, globalCap: Option<nat>)

  const SUFFIX := ".edgecloud.dev"
  const CROSS_REPLICA_ID := "global-rate-limit-cross-replica"

  function IngressHost(tenant: string, app: string): string { tenant + "-" + app + SUFFIX }

  // ---------------------------------------------------------------- one app

  function GroupOf(entries: seq<RouteEntry>, key: (string, string)): seq<RouteEntry>
    decreases |entries|
  {
    if entries == [] then [] else
    var n := |entries| - 1;
    GroupOf(entries[..n], key) + if (entries[n].tenant, entries[n].app) == key then [entries[n]] else []
  }

  /** A group is the rows of its app. */
  lemma {:induction false} GroupMembers(entries: seq<RouteEntry>, key: (string, string), e: RouteEntry)
    ensures e in GroupOf(entries, key) <==> e in entries && (e.tenant, e.app) == key
    decreases |entries|
  {
    if entries != [] {
      var n := |entries| - 1;
      GroupMembers(entries[..n], key, e);
      assert entries == entries[..n] + [entries[n]];
    }
  }

  lemma GroupIsEmptyIff(entries: seq<RouteEntry>, key: (string, string))
    ensures key in KeysOf(entries) <==> GroupOf(entries, key) != []
  {
    var g := GroupOf(entries, key);
    if g != [] { GroupMembers(entries, key, g[0]); }
    if key in KeysOf(entries) {
      var e :| e in entries && (e.tenant, e.app) == key;
      GroupMembers(entries, key, e);
    }
  }

  function KeysOf(entries: seq<RouteEntry>): set<(string, string)> { set e | e in entries :: (e.tenant, e.app) }

  /** By deployment, the legacy one first, then by worker. */
  predicate DeploymentLeq(a: RouteEntry, b: RouteEntry) {
    if a.deployment == b.deployment then LexLeq(a.worker, b.worker)
    else a.deployment == None || (b.deployment.Some? && LexLeq(a.deployment.value, b.deployment.value))
  }

  function OrDefault(o: Option<u32>, d: nat): nat { if o.Some? then o.value as nat else d }

  /** Upstreams of a sorted group; weights only when there is a choice. */
  function Upstreams(inp: Inputs, group: seq<RouteEntry>): seq<Upstream> {
    if |group| == 1 then [Upstream(group[0].worker, group[0].port, None)]
    else seq(|group|, i requires 0 <= i < |group| => Weighted(inp, group[i]))
  }

  /** The cached traffic-split weight if there is one, else the heartbeat's. */
  function Weighted(inp: Inputs, e: RouteEntry): Upstream {
    Upstream(e.worker, e.port,
        Some(if e.deployment.Some? && e.Key() in inp.weights then inp.weights[e.Key()] else e.weight))
  }

  function Limit(rps: nat, burst: nat): seq<Handler> {
    if rps == 0 then [] else [RateLimit("{http.request.host}", rps, if burst > 0 then burst else rps)]
  }

  /** Per-app cache over row over configured default. */
  function AppLimit(inp: Inputs, key: (string, string), first: RouteEntry): seq<Handler> {
    if key in inp.rateLimits then Limit(inp.rateLimits[key].0, inp.rateLimits[key].1)
    else Limit(OrDefault(first.rps, inp.cfg.rpsDefault), OrDefault(first.burst, inp.cfg.burstDefault))
  }

  function SortedGroup(entries: seq<RouteEntry>, key: (string, string)): (g: seq<RouteEntry>)
    requires key in KeysOf(entries)
    ensures g != []
  {
    SortPermutes(GroupOf(entries, key), DeploymentLeq);
    GroupIsEmptyIff(entries, key);
    PermutationMembers(Sort(GroupOf(entries, key), DeploymentLeq), GroupOf(entries, key));
    Sort(GroupOf(entries, key), DeploymentLeq)
  }

  function AppRoute(inp: Inputs, entries: seq<RouteEntry>, key: (string, string)): Route
    requires key in KeysOf(entries)
  {
    var group := SortedGroup(entries, key);
    var host := IngressHost(key.0, key.1);
    Route(Some(host), HostIs(host), AppLimit(inp, key, group[0]) + [ReverseProxy(Upstreams(inp, group))], true)
  }

  function AppRoutes(inp: Inputs, entries: seq<RouteEntry>, keys: seq<(string, string)>): seq<Route>
    requires Elements(keys) <= KeysOf(entries)
  {
    seq(|keys|, i requires 0 <= i < |keys| => assert keys[i] in Elements(keys); AppRoute(inp, entries, keys[i]))
  }

  // ---------------------------------------------------------------- tenants and the platform

  function QuotaRoute(tenant: string): Route {
    Route(Some(tenant + ":quota-402-synthetic"), TenantHosts(tenant), [PaymentRequired], true)
  }

  function QuotaRoutes(tenants: seq<string>): seq<Route> {
    seq(|tenants|, i requires 0 <= i < |tenants| => QuotaRoute(tenants[i]))
  }

  /** One section of per-tenant limits: the routes of every cap, in order. */
  function PerTenant(caps: seq<TenantCap>, route: TenantCap -> seq<Route>): seq<Route>
    decreases |caps|
  {
    if caps == [] then [] else PerTenant(caps[..|caps| - 1], route) + route(caps[|caps| - 1])
  }

  function ConcurrentRoute(c: TenantCap): seq<Route> {
    if c.concurrent > 0
    then [Route(Some("tenant-concurrent:" + c.tenant), TenantHosts(c.tenant),
        [ConcurrentCap("tenant-" + c.tenant, c.concurrent)], false)]
    else []
  }

  function BandwidthRoute(c: TenantCap): seq<Route> {
    if c.bandwidth > 0
    then [Route(Some("tenant-bandwidth:" + c.tenant), TenantHosts(c.tenant),
        [BandwidthCap("tenant-" + c.tenant, c.bandwidth)], false)]
    else []
  }

  function TenantRpsRoute(c: TenantCap): seq<Route> {
    if c.rps > 0
    then [Route(Some("tenant-rl:" + c.tenant), TenantHosts(c.tenant),
        [RateLimit("tenant-" + c.tenant, c.rps, if c.burst > 0 then c.burst else c.rps)], false)]
    else []
  }

  function ConcurrentRoutes(caps: seq<TenantCap>): seq<Route> { PerTenant(caps, ConcurrentRoute) }

  function BandwidthRoutes(caps: seq<TenantCap>): seq<Route> { PerTenant(caps, BandwidthRoute) }

  function TenantRpsRoutes(caps: seq<TenantCap>): seq<Route> { PerTenant(caps, TenantRpsRoute) }

  /** The cross-replica route, present when aggregation is on, a platform cap is configured and a cap is known. */
  function CrossFor(cfg: Config, cap: Option<nat>): seq<Route> {
    if cfg.aggregation && cfg.globalRps > 0 && cap.Some?
    then [Route(Some(CROSS_REPLICA_ID), Everything, [RateLimit("global-platform-cross-replica", cap.value, cap.value)],
        false)]
    else []
  }

  function CrossReplica(inp: Inputs): seq<Route> { CrossFor(inp.cfg, inp.globalCap) }

  function PerIp(cfg: Config): seq<Route> {
    if cfg.perIpRps == 0 then [] else
    [Route(None, Ipv4,
        [RateLimit("{http.request.remote_host}", cfg.perIpRps,
        if cfg.perIpBurst > 0 then cfg.perIpBurst else cfg.perIpRps)], false)]
  }

  function Global(cfg: Config): seq<Route> {
    if cfg.globalRps == 0 then [] else
    [Route(Some("global-rate-limit"), AnyIp,
        [RateLimit("global-platform", cfg.globalRps, if cfg.globalBurst > 0 then cfg.globalBurst else cfg.globalRps)],
        false)]
  }

  // ---------------------------------------------------------------- custom domains

  predicate FqdnLeq(a: Binding, b: Binding) { LexLeq(a.fqdn, b.fqdn) }

  /** The row a custom domain is proxied to: the last one of its app in snapshot order. */
  function LastRow(entries: seq<RouteEntry>, key: (string, string)): Option<RouteEntry> {
    var g := GroupOf(entries, key);
    if g == [] then None else Some(g[|g| - 1])
  }

  /** The last row of the app. */
  ghost predicate IsLastRow(entries: seq<RouteEntry>, key: (string, string), i: int) {
    && 0 <= i < |entries| && (entries[i].tenant, entries[i].app) == key
    && forall j :: i < j < |entries| ==> (entries[j].tenant, entries[j].app) != key
  }

  /** There is a row exactly when the app has one, and then it is its last. */
  lemma {:induction false} LastRowIs(entries: seq<RouteEntry>, key: (string, string)) returns (i: int)
    ensures LastRow(entries, key) == None <==> forall e :: e in entries ==> (e.tenant, e.app) != key
    ensures LastRow(entries, key).Some? ==> IsLastRow(entries, key, i) && LastRow(entries, key) == Some(entries[i])
    decreases |entries|
  {
    i := |entries| - 1;
    if entries != [] && (entries[i].tenant, entries[i].app) != key {
      var n := i;
      i := LastRowIs(entries[..n], key);
      assert entries == entries[..n] + [entries[n]];
    }
  }

  function FqdnLimit(inp: Inputs, key: (string, string), row: RouteEntry): seq<Handler> {
    if key in inp.rateLimits then Limit(inp.rateLimits[key].0, inp.rateLimits[key].1)
    else
      var rps, burst := OrDefault(row.rps, inp.cfg.rpsDefault), OrDefault(row.burst, inp.cfg.burstDefault);
      Limit(if rps > 0 then rps else inp.cfg.rpsDefault, if burst > 0 then burst else inp.cfg.burstDefault)
  }

  function FqdnRoute(inp: Inputs, entries: seq<RouteEntry>, b: Binding): seq<Route> {
    var key := (b.tenant, b.app);
    var row := LastRow(entries, key);
    if row == None then []
    else if b.tenant in inp.overCap
        then [Route(Some(b.fqdn + ":quota-402-fqdn"), HostIs(b.fqdn), [PaymentRequired], true)]
    else [Route(Some(b.fqdn), HostIs(b.fqdn),
        FqdnLimit(inp, key, row.value) + [ReverseProxy([Upstream(row.value.worker, row.value.port, None)])], true)]
  }

  function FqdnRoutes(inp: Inputs, entries: seq<RouteEntry>, bs: seq<Binding>): seq<Route>
    decreases |bs|
  {
    if bs == [] then [] else FqdnRoutes(inp, entries, bs[..|bs| - 1]) + FqdnRoute(inp, entries, bs[|bs| - 1])
  }

  // ---------------------------------------------------------------- the whole list

  /** Tenants with routes that are over their quota. */
  function OverCapTenants(inp: Inputs, entries: seq<RouteEntry>): set<string> {
    set e | e in entries && e.tenant in inp.overCap :: e.tenant
  }

  /** The rendered list, section by section. `over` lists the over-cap tenants and `keys` the apps. */
  function Rendered(inp: Inputs, entries: seq<RouteEntry>, fqdns: seq<Binding>, over: seq<string>,
      keys: seq<(string, string)>): seq<Route>
    requires Elements(keys) <= KeysOf(entries)
  {
    Global(inp.cfg) + PerIp(inp.cfg) + QuotaRoutes(over) +
    ConcurrentRoutes(inp.tenantCaps) + BandwidthRoutes(inp.tenantCaps) + TenantRpsRoutes(inp.tenantCaps) +
    CrossReplica(inp) + AppRoutes(inp, entries, keys) + FqdnRoutes(inp, entries, Sort(fqdns, FqdnLeq))
  }

  /** `keys` lists the apps of the snapshot once each, sorted by tenant and name. */
  ghost predicate IsKeyOrder(entries: seq<RouteEntry>, keys: seq<(string, string)>) {
    Elements(keys) == KeysOf(entries) && NoDuplicates(keys) && Sorted(keys, PairLeq)
  }

  method GroupByApp(entries: seq<RouteEntry>) returns (groups: map<(string, string), seq<RouteEntry>>)
    ensures groups.Keys == KeysOf(entries) && forall k :: k in groups ==> groups[k] == GroupOf(entries, k)
  {
    groups := map[];
    for i := 0 to |entries|
      invariant groups.Keys == KeysOf(entries[..i])
      invariant forall k :: k in groups ==> groups[k] == GroupOf(entries[..i], k)
    {
      var e := entries[i];
      var k := (e.tenant, e.app);
      assert entries[..i + 1] == entries[..i] + [e];
      GroupIsEmptyIff(entries[..i], k);
      forall l | l in groups && l != k ensures GroupOf(entries[..i + 1], l) == groups[l] {
      }
      groups := groups[k := (if k in groups then groups[k] else []) + [e]];
    }
    assert entries[..|entries|] == entries;
  }

  method SortKeys(listed: seq<(string, string)>) returns (keys: seq<(string, string)>)
    requires NoDuplicates(listed)
    ensures Elements(keys) == Elements(listed) && NoDuplicates(keys) && Sorted(keys, PairLeq)
  {
    keys := Sort(listed, PairLeq);
    PairLeqIsOrder();
    SortSorts(listed, PairLeq);
    PermutationMembers(keys, listed);
    DistinctPermutation(keys, listed);
  }

  lemma DistinctPermutation<T>(s: seq<T>, t: seq<T>)
    requires multiset(s) == multiset(t) && NoDuplicates(t)
    ensures NoDuplicates(s)
  {
    forall i, j | 0 <= i < j < |s| ensures s[i] != s[j] {
      OccursOnce(t, s[i]);
      OccursTwice(s, i, j);
    }
  }

  lemma OccursTwice<T>(s: seq<T>, i: nat, j: nat)
    requires i < j < |s|
    ensures s[i] == s[j] ==> multiset(s)[s[i]] >= 2
  {
    assert s == s[..i] + [s[i]] + s[i + 1..j] + [s[j]] + s[j + 1..];
  }

  lemma {:induction false} OccursOnce<T>(t: seq<T>, x: T)
    requires NoDuplicates(t)
    ensures multiset(t)[x] <= 1
    decreases |t|
  {
    if t != [] {
      OccursOnce(t[1..], x);
      assert t == [t[0]] + t[1..];
      assert t[0] == x ==> x !in t[1..] && x !in multiset(t[1..]);
    }
  }

  method TenantRoutes(caps: seq<TenantCap>) returns (concurrent: seq<Route>, bandwidth: seq<Route>, rps: seq<Route>)
    ensures concurrent == ConcurrentRoutes(caps) && bandwidth == BandwidthRoutes(caps) && rps == TenantRpsRoutes(caps)
  {
    concurrent, bandwidth, rps := [], [], [];
    for i := 0 to |caps|
      invariant concurrent == ConcurrentRoutes(caps[..i])
    {
      assert caps[..i + 1][..i] == caps[..i];
      var c := caps[i];
      if c.concurrent > 0 {
        concurrent := concurrent
            + [Route(Some("tenant-concurrent:" + c.tenant), TenantHosts(c.tenant),
            [ConcurrentCap("tenant-" + c.tenant, c.concurrent)], false)];
      }
    }
    for i := 0 to |caps|
      invariant bandwidth == BandwidthRoutes(caps[..i])
    {
      assert caps[..i + 1][..i] == caps[..i];
      var c := caps[i];
      if c.bandwidth > 0 {
        bandwidth := bandwidth
            + [Route(Some("tenant-bandwidth:" + c.tenant), TenantHosts(c.tenant),
            [BandwidthCap("tenant-" + c.tenant, c.bandwidth)], false)];
      }
    }
    for i := 0 to |caps|
      invariant rps == TenantRpsRoutes(caps[..i])
    {
      assert caps[..i + 1][..i] == caps[..i];
      var c := caps[i];
      if c.rps > 0 {
        var burst := if c.burst > 0 then c.burst else c.rps;
        rps := rps
            + [Route(Some("tenant-rl:" + c.tenant), TenantHosts(c.tenant),
            [RateLimit("tenant-" + c.tenant, c.rps, burst)], false)];
      }
    }
    assert caps[..|caps|] == caps;
  }

  /** Splicing the tenant sections and the cross-replica route into the list by position, appending the
      custom domains and inserting at the front leaves exactly the sections in order. */
  method Splice(
    quota: seq<Route>, apps: seq<Route>, concurrent: seq<Route>, bandwidth: seq<Route>, rps: seq<Route>,
    cross: Option<Route>, fqdns: seq<Route>, perIp: Option<Route>, global: Option<Route>)
    returns (routes: seq<Route>)
    ensures routes ==
        (if global.Some? then [global.value] else []) + (if perIp.Some? then [perIp.value] else []) + quota +
                      concurrent + bandwidth + rps + (if cross.Some? then [cross.value] else []) + apps + fqdns
  {
    routes := quota + apps;
    ghost var head := quota;
    if concurrent != [] || bandwidth != [] || rps != [] {
      SplitAt(head, apps);
      var perAppStart := |quota|;
      var perApp := routes[perAppStart..];
      routes := routes[..perAppStart];
      routes := routes + concurrent;
      routes := routes + bandwidth;
      routes := routes + rps;
      routes := routes + perApp;
    }
    head := quota + concurrent + bandwidth + rps;
    assert routes == head + apps;
    if cross.Some? {
      SplitAt(head, apps);
      var perAppStart := |quota| + |concurrent| + |bandwidth| + |rps|;
      var perApp := routes[perAppStart..];
      routes := routes[..perAppStart];
      routes := routes + [cross.value];
      routes := routes + perApp;
    }
    routes := routes + fqdns;
    ghost var tail := head + (if cross.Some? then [cross.value] else []) + apps + fqdns;
    assert routes == tail;
    if perIp.Some? {
      routes := [perIp.value] + routes;
    }
    if global.Some? {
      routes := [global.value] + routes;
    }
    Regroup(if global.Some? then [global.value] else [], if perIp.Some? then [perIp.value] else [],
            quota, concurrent, bandwidth, rps, if cross.Some? then [cross.value] else [], apps, fqdns);
  }

  lemma SplitAt(a: seq<Route>, b: seq<Route>)
    ensures (a + b)[..|a|] == a && (a + b)[|a|..] == b
  {
  }

  lemma Assoc(a: seq<Route>, b: seq<Route>, c: seq<Route>)
    ensures (a + b) + c == a + (b + c)
  {
  }

  lemma Regroup(g: seq<Route>, i: seq<Route>, q: seq<Route>, c: seq<Route>, b: seq<Route>, r: seq<Route>,
      x: seq<Route>, a: seq<Route>, f: seq<Route>)
    ensures g + i + q + c + b + r + x + a + f == g + (i + (q + c + b + r + x + a + f))
  {
    var h := g + i;
    Assoc(h, q, c);
    Assoc(h, q + c, b);
    Assoc(h, q + c + b, r);
    Assoc(h, q + c + b + r, x);
    Assoc(h, q + c + b + r + x, a);
    Assoc(h, q + c + b + r + x + a, f);
    Assoc(g, i, q + c + b + r + x + a + f);
  }

  function First(routes: seq<Route>): Option<Route> { if routes == [] then None else Some(routes[0]) }

  method RenderApps(inp: Inputs, ghost entries: seq<RouteEntry>, keys: seq<(string, string)>,
      groups: map<(string, string), seq<RouteEntry>>) returns (apps: seq<Route>)
    requires Elements(keys) == groups.Keys == KeysOf(entries) && forall k :: k in groups ==>
        groups[k] == GroupOf(entries, k)
    ensures apps == AppRoutes(inp, entries, keys)
  {
    apps := [];
    for i := 0 to |keys|
      invariant apps == AppRoutes(inp, entries, keys)[..i]
    {
      var key := keys[i];
      assert key in Elements(keys);
      var host := IngressHost(key.0, key.1);
      var group := Sort(groups[key], DeploymentLeq);
      assert group == SortedGroup(entries, key);
      apps := apps
          + [Route(Some(host), HostIs(host), AppLimit(inp, key, group[0]) + [ReverseProxy(Upstreams(inp, group))],
          true)];
    }
  }

  method RenderRoutes(inp: Inputs, entries: seq<RouteEntry>, fqdns: seq<Binding>)
    returns (routes: seq<Route>, ghost over: seq<string>, ghost keys: seq<(string, string)>)
    ensures IsKeyOrder(entries, keys) && Elements(over) == OverCapTenants(inp, entries) && NoDuplicates(over)
    ensures routes == Rendered(inp, entries, fqdns, over, keys)
  {
    var groups := GroupByApp(entries);
    var listed := ListOf(groups.Keys);
    var order := SortKeys(listed);
    keys := order;
    var overCap := ListOf(OverCapTenants(inp, entries));
    over := overCap;
    var apps := RenderApps(inp, entries, order, groups);
    var quota := QuotaRoutes(overCap);
    var concurrent, bandwidth, rps := TenantRoutes(inp.tenantCaps);
    var sorted := Sort(fqdns, FqdnLeq);
    var domains: seq<Route> := [];
    for i := 0 to |sorted|
      invariant domains == FqdnRoutes(inp, entries, sorted[..i])
    {
      assert sorted[..i + 1][..i] == sorted[..i];
      domains := domains + FqdnRoute(inp, entries, sorted[i]);
    }
    assert sorted[..|sorted|] == sorted;
    routes := Splice(quota, apps, concurrent, bandwidth, rps, First(CrossReplica(inp)), domains, First(PerIp(inp.cfg)),
        First(Global(inp.cfg)));
  }
}
