/** Which limits a request meets on its way through the rendered routes, and in which order
    (edge-ingress/src/caddy.rs, `render_routes`). */
module RenderLimits {
  import opened Common
  import opened Routing
  import opened Sorting
  import opened Render
  import opened RenderMeaning
  import TenantConcurrent

  /** The handlers a request meets: those of every matching route up to the first terminal one. */
  function Passed(routes: seq<Route>, req: Request): seq<Handler> {
    if routes == [] then []
    else if !Matches(routes[0].matcher, req) then Passed(routes[1..], req)
    else if routes[0].terminal then routes[0].handlers
    else routes[0].handlers + Passed(routes[1..], req)
  }

  function HandlersOf(routes: seq<Route>): seq<Handler> {
    if routes == [] then [] else routes[0].handlers + HandlersOf(routes[1..])
  }

  /** The caps of one tenant, in order. */
  function OfTenant(caps: seq<TenantCap>, t: string): seq<TenantCap>
    decreases |caps|
  {
    if caps == [] then [] else
    var c := caps[|caps| - 1];
    OfTenant(caps[..|caps| - 1], t) + if c.tenant == t then [c] else []
  }

  /** A tenant's limits: requests in flight, bandwidth, request rate. */
  function TenantLimits(caps: seq<TenantCap>): seq<Handler> {
    HandlersOf(ConcurrentRoutes(caps)) + HandlersOf(BandwidthRoutes(caps)) + HandlersOf(TenantRpsRoutes(caps))
  }

  /** The limits before everything else; the per-address one is for IPv4 clients only. */
  function PlatformLimits(cfg: Config, ipv6: bool): seq<Handler> {
    HandlersOf(Global(cfg)) + if ipv6 then [] else HandlersOf(PerIp(cfg))
  }

  // ---------------------------------------------------------------- sections

  lemma {:induction false} PassedOfConcat(a: seq<Route>, b: seq<Route>, req: Request)
    ensures Passed(a + b, req) == if Decides(a, req) then Passed(a, req) else Passed(a, req) + Passed(b, req)
    decreases |a|
  {
    if a == [] {
      assert a + b == b;
    } else {
      PassedOfConcat(a[1..], b, req);
      assert (a + b)[1..] == a[1..] + b;
      DecidesTail(a, req);
      var h, x, y := a[0].handlers, Passed(a[1..], req), Passed(b, req);
      assert h + (x + y) == (h + x) + y;
    }
  }

  lemma {:induction false} HandlersOfConcat(a: seq<Route>, b: seq<Route>)
    ensures HandlersOf(a + b) == HandlersOf(a) + HandlersOf(b)
    decreases |a|
  {
    if a == [] {
      assert a + b == b;
    } else {
      HandlersOfConcat(a[1..], b);
      assert (a + b)[1..] == a[1..] + b;
    }
  }

  /** When all matching routes are terminal with the same handlers, those are met if any route matches. */
  lemma {:induction false} PassedIs(a: seq<Route>, req: Request, h: seq<Handler>)
    requires forall i :: 0 <= i < |a| && Matches(a[i].matcher, req) ==> a[i].terminal && a[i].handlers == h
    ensures Passed(a, req) == if Decides(a, req) then h else []
    decreases |a|
  {
    if a != [] {
      DecidesTail(a, req);
      PassedIs(a[1..], req, h);
    }
  }

  /** One more tenant's route behind a section of limits: it is met when it is the request's own tenant's. */
  lemma OneMoreCap(before: seq<Route>, own: seq<Route>, added: seq<Route>, req: Request, meets: bool)
    requires PassThrough(before) && Passed(before, req) == HandlersOf(own)
    requires |added| <= 1 && forall r :: r in added ==> !r.terminal && (Matches(r.matcher, req) <==> meets)
    ensures Passed(before + added, req) == HandlersOf(own + if meets then added else [])
  {
    PassThroughNeverDecides(before, req);
    PassedOfConcat(before, added, req);
    HandlersOfConcat(own, if meets then added else []);
    if added != [] {
      assert added[0] in added && added[1..] == [];
      assert Passed(added[1..], req) == [] && HandlersOf(added[1..]) == [];
    }
  }

  /** The request's host is covered by a tenant's pattern exactly when `covered` holds and the tenant is `t`. */
  ghost predicate CoveredBy(caps: seq<TenantCap>, req: Request, t: string, covered: bool) {
    forall c :: c in caps ==> (TenantPattern(c.tenant, req.host) <==> covered && c.tenant == t)
  }

  function Own(caps: seq<TenantCap>, t: string, covered: bool): seq<TenantCap> {
    if covered then OfTenant(caps, t) else []
  }

  /** A request meets the routes of its own tenant's caps, in order, and no other of the section. */
  lemma {:induction false} SectionPassed(caps: seq<TenantCap>, route: TenantCap -> seq<Route>, req: Request, t: string,
      covered: bool)
    requires LimitsTenants(route) && CoveredBy(caps, req, t, covered)
    ensures Passed(PerTenant(caps, route), req) == HandlersOf(PerTenant(Own(caps, t, covered), route))
    decreases |caps|
  {
    if caps != [] {
      var init, c := caps[..|caps| - 1], caps[|caps| - 1];
      SectionPassed(init, route, req, t, covered);
      SectionPassesThrough(init, route);
      var own := Own(init, t, covered);
      assert (own + [c])[..|own|] == own;
      assert Own(caps, t, covered) == if covered && c.tenant == t then own + [c] else own;
      OneMoreCap(PerTenant(init, route), PerTenant(own, route), route(c), req, covered && c.tenant == t);
      assert PerTenant(own, route) + [] == PerTenant(own, route);
    }
  }

  lemma LimitsPassed(inp: Inputs, req: Request, t: string, covered: bool)
    requires CoveredBy(inp.tenantCaps, req, t, covered)
    ensures Passed(ConcurrentRoutes(inp.tenantCaps) + BandwidthRoutes(inp.tenantCaps) + TenantRpsRoutes(inp.tenantCaps)
        + CrossReplica(inp), req)
            == TenantLimits(Own(inp.tenantCaps, t, covered)) + HandlersOf(CrossReplica(inp))
  {
    CapsPassThrough(inp.tenantCaps);
    FourSections(ConcurrentRoutes(inp.tenantCaps), BandwidthRoutes(inp.tenantCaps), TenantRpsRoutes(inp.tenantCaps),
        CrossReplica(inp), req);
    SectionsLimitTenants();
    SectionPassed(inp.tenantCaps, ConcurrentRoute, req, t, covered);
    SectionPassed(inp.tenantCaps, BandwidthRoute, req, t, covered);
    SectionPassed(inp.tenantCaps, TenantRpsRoute, req, t, covered);
    SinglePassed(CrossReplica(inp), req);
  }

  lemma FourSections(c: seq<Route>, b: seq<Route>, r: seq<Route>, x: seq<Route>, req: Request)
    requires PassThrough(c) && PassThrough(b) && PassThrough(r)
    ensures Passed(c + b + r + x, req) == Passed(c, req) + Passed(b, req) + Passed(r, req) + Passed(x, req)
  {
    PassThroughNeverDecides(c, req);
    PassThroughNeverDecides(c + b, req);
    PassThroughNeverDecides(c + b + r, req);
    PassedOfConcat(c, b, req);
    PassedOfConcat(c + b, r, req);
    PassedOfConcat(c + b + r, x, req);
  }

  lemma SinglePassed(a: seq<Route>, req: Request)
    requires |a| <= 1 && forall r :: r in a ==> !r.terminal
    ensures Passed(a, req) == if a != [] && Matches(a[0].matcher, req) then HandlersOf(a) else []
  {
    if a != [] {
      assert a[0] in a && a[1..] == [];
      assert Passed(a[1..], req) == [] && HandlersOf(a[1..]) == [];
    }
  }

  lemma PlatformPassed(cfg: Config, req: Request)
    ensures Passed(Global(cfg) + PerIp(cfg), req) == PlatformLimits(cfg, req.ipv6)
  {
    PassThroughNeverDecides(Global(cfg), req);
    PassedOfConcat(Global(cfg), PerIp(cfg), req);
    SinglePassed(Global(cfg), req);
    SinglePassed(PerIp(cfg), req);
  }

  lemma QuotaPassed(over: seq<string>, req: Request)
    ensures Passed(QuotaRoutes(over), req) == if exists t :: t in over && TenantPattern(t, req.host)
        then [PaymentRequired] else []
  {
    PassedIs(QuotaRoutes(over), req, [PaymentRequired]);
    QuotaVerdict(over, req);
  }

  function LimitRoutes(inp: Inputs): seq<Route> {
    ConcurrentRoutes(inp.tenantCaps) + BandwidthRoutes(inp.tenantCaps) + TenantRpsRoutes(inp.tenantCaps)
        + CrossReplica(inp)
  }

  lemma BehindQuota(inp: Inputs, over: seq<string>, tail: seq<Route>, req: Request, t: string, covered: bool)
    requires CoveredBy(inp.tenantCaps, req, t, covered)
    ensures Passed(QuotaRoutes(over) + (LimitRoutes(inp) + tail), req) ==
            if exists u :: u in over && TenantPattern(u, req.host) then [PaymentRequired]
            else TenantLimits(Own(inp.tenantCaps, t, covered)) + HandlersOf(CrossReplica(inp)) + Passed(tail, req)
  {
    CapsPassThrough(inp.tenantCaps);
    PassThroughNeverDecides(LimitRoutes(inp), req);
    PassedOfConcat(LimitRoutes(inp), tail, req);
    PassedOfConcat(QuotaRoutes(over), LimitRoutes(inp) + tail, req);
    QuotaVerdict(over, req);
    QuotaPassed(over, req);
    LimitsPassed(inp, req, t, covered);
    assert [] + Passed(LimitRoutes(inp) + tail, req) == Passed(LimitRoutes(inp) + tail, req);
  }

  /** The handlers met on the way through a whole rendering. */
  lemma RenderedPassed(inp: Inputs, entries: seq<RouteEntry>, fqdns: seq<Binding>, over: seq<string>,
      keys: seq<(string, string)>, req: Request, t: string, covered: bool)
    requires Elements(keys) <= KeysOf(entries) && CoveredBy(inp.tenantCaps, req, t, covered)
    ensures Passed(Rendered(inp, entries, fqdns, over, keys), req) ==
            PlatformLimits(inp.cfg, req.ipv6) +
            if exists u :: u in over && TenantPattern(u, req.host) then [PaymentRequired]
            else TenantLimits(Own(inp.tenantCaps, t, covered)) + HandlersOf(CrossReplica(inp)) +
                 Passed(AppRoutes(inp, entries, keys) + FqdnRoutes(inp, entries, Sort(fqdns, FqdnLeq)), req)
  {
    var front, quota := Global(inp.cfg) + PerIp(inp.cfg), QuotaRoutes(over);
    var apps, domains := AppRoutes(inp, entries, keys), FqdnRoutes(inp, entries, Sort(fqdns, FqdnLeq));
    Regroup5(inp, front, quota, LimitRoutes(inp), apps, domains);
    PassThroughNeverDecides(front, req);
    PassedOfConcat(front, quota + (LimitRoutes(inp) + (apps + domains)), req);
    PlatformPassed(inp.cfg, req);
    BehindQuota(inp, over, apps + domains, req, t, covered);
  }

  // ---------------------------------------------------------------- hosts of apps and custom domains

  lemma AppPassed(inp: Inputs, entries: seq<RouteEntry>, keys: seq<(string, string)>, key: (string, string),
      req: Request)
    requires Elements(keys) == KeysOf(entries) && key in KeysOf(entries) && TenantsApart(entries, key.0)
    requires req.host == IngressHost(key.0, key.1)
    ensures var apps := AppRoutes(inp, entries, keys);
            Decides(apps, req) && Passed(apps, req) == AppRoute(inp, entries, key).handlers
  {
    var apps := AppRoutes(inp, entries, keys);
    forall i | 0 <= i < |apps| && Matches(apps[i].matcher, req)
        ensures apps[i].handlers == AppRoute(inp, entries, key).handlers {
      assert keys[i] in Elements(keys);
      HostsAreInjective(keys[i].0, keys[i].1, key.0, key.1);
      assert keys[i] == key;
    }
    PassedIs(apps, req, AppRoute(inp, entries, key).handlers);
    AppVerdict(inp, entries, keys, key, req);
  }

  /** Limits are complete and tenant-isolated: a request to the host of an app with rows meets the platform
      limits, then either the 402, or the limits of its own tenant and of no other, the cross-replica limit
      and its own app's handlers. A dot in the app's name takes the request past the 402 and past all of its
      tenant's limits. */
  lemma SyntheticHostLimits(inp: Inputs, entries: seq<RouteEntry>, fqdns: seq<Binding>, over: seq<string>,
      keys: seq<(string, string)>, key: (string, string), ipv6: bool)
    requires Elements(over) == OverCapTenants(inp, entries) && IsKeyOrder(entries, keys)
    requires key in KeysOf(entries) && TenantsApart(entries, key.0) && forall c :: c in inp.tenantCaps ==>
        Apart(c.tenant, key.0)
    ensures var covered := key.1 != "" && '.' !in key.1;
            Passed(Rendered(inp, entries, fqdns, over, keys), Request(IngressHost(key.0, key.1), ipv6)) ==
            PlatformLimits(inp.cfg, ipv6) +
            if covered && key.0 in inp.overCap then [PaymentRequired]
            else TenantLimits(if covered then OfTenant(inp.tenantCaps, key.0) else []) + HandlersOf(CrossReplica(inp))
                 + AppRoute(inp, entries, key).handlers
  {
    var req, covered := Request(IngressHost(key.0, key.1), ipv6), key.1 != "" && '.' !in key.1;
    var e :| e in entries && (e.tenant, e.app) == key;
    forall c | c in inp.tenantCaps ensures TenantPattern(c.tenant, req.host) <==> covered && c.tenant == key.0 {
      PatternOfHost(key.0, key.1, c.tenant);
    }
    OverCapPattern(inp, entries, over, key, req);
    RenderedPassed(inp, entries, fqdns, over, keys, req, key.0, covered);
    AppPassed(inp, entries, keys, key, req);
    PassedOfConcat(AppRoutes(inp, entries, keys), FqdnRoutes(inp, entries, Sort(fqdns, FqdnLeq)), req);
  }

  lemma OverCapPattern(inp: Inputs, entries: seq<RouteEntry>, over: seq<string>, key: (string, string), req: Request)
    requires Elements(over) == OverCapTenants(inp, entries) && key in KeysOf(entries) && TenantsApart(entries, key.0)
    requires req.host == IngressHost(key.0, key.1)
    ensures (exists u :: u in over && TenantPattern(u, req.host)) <==>
        key.0 in inp.overCap && key.1 != "" && '.' !in key.1
  {
    var e :| e in entries && (e.tenant, e.app) == key;
    if u :| u in over && TenantPattern(u, req.host) {
      assert u in Elements(over);
      PatternOfHost(key.0, key.1, u);
    }
    if key.0 in inp.overCap {
      assert key.0 in Elements(over);
      PatternOfHost(key.0, key.1, key.0);
    }
  }

  /** A custom domain meets the platform and cross-replica limits and its own route's handlers, but none of
      its tenant's limits: those are matched by synthetic host only. */
  lemma CustomDomainLimits(inp: Inputs, entries: seq<RouteEntry>, fqdns: seq<Binding>, over: seq<string>,
      keys: seq<(string, string)>, b: Binding, ipv6: bool)
    requires Elements(keys) == KeysOf(entries) && DistinctNames(fqdns) && b in fqdns && !SuffixMatches(b.fqdn)
    ensures Passed(Rendered(inp, entries, fqdns, over, keys), Request(b.fqdn, ipv6)) ==
            PlatformLimits(inp.cfg, ipv6) + HandlersOf(CrossReplica(inp)) + HandlersOf(FqdnRoute(inp, entries, b))
  {
    var req := Request(b.fqdn, ipv6);
    assert forall t :: !TenantPattern(t, b.fqdn);
    RenderedPassed(inp, entries, fqdns, over, keys, req, "", false);
    OnlyTheDomain(inp, entries, fqdns, keys, b, req);
    WithoutTenantLimits(PlatformLimits(inp.cfg, ipv6), HandlersOf(CrossReplica(inp)),
        HandlersOf(FqdnRoute(inp, entries, b)));
  }

  lemma WithoutTenantLimits(platform: seq<Handler>, cross: seq<Handler>, route: seq<Handler>)
    ensures platform + (TenantLimits([]) + cross + route) == platform + cross + route
  {
    assert TenantLimits([]) == [];
  }

  lemma OnlyTheDomain(inp: Inputs, entries: seq<RouteEntry>, fqdns: seq<Binding>, keys: seq<(string, string)>,
      b: Binding, req: Request)
    requires Elements(keys) <= KeysOf(entries) && DistinctNames(fqdns) && b in fqdns && !SuffixMatches(b.fqdn)
        && req.host == b.fqdn
    ensures Passed(AppRoutes(inp, entries, keys) + FqdnRoutes(inp, entries, Sort(fqdns, FqdnLeq)), req) ==
        HandlersOf(FqdnRoute(inp, entries, b))
  {
    var apps, sorted := AppRoutes(inp, entries, keys), Sort(fqdns, FqdnLeq);
    SortPermutes(fqdns, FqdnLeq);
    PermutationMembers(sorted, fqdns);
    assert forall c :: c in sorted <==> c in Elements(sorted);
    assert forall c :: c in fqdns <==> c in Elements(fqdns);
    forall i | 0 <= i < |apps| ensures !Matches(apps[i].matcher, req) { SyntheticSuffix(keys[i].0, keys[i].1); }
    PassedIs(apps, req, []);
    PassedOfConcat(apps, FqdnRoutes(inp, entries, sorted), req);
    DomainPassed(inp, entries, sorted, b, req);
  }

  lemma DomainPassed(inp: Inputs, entries: seq<RouteEntry>, bs: seq<Binding>, b: Binding, req: Request)
    requires b in bs && req.host == b.fqdn && forall c :: c in bs && c.fqdn == b.fqdn ==> c == b
    ensures Passed(FqdnRoutes(inp, entries, bs), req) == HandlersOf(FqdnRoute(inp, entries, b))
  {
    var routes, own := FqdnRoutes(inp, entries, bs), FqdnRoute(inp, entries, b);
    assert own == [] || (own[1..] == [] && HandlersOf(own[1..]) == []);
    forall i | 0 <= i < |routes| && Matches(routes[i].matcher, req)
        ensures routes[i].terminal && routes[i].handlers == HandlersOf(own) {
      var c := RouteOfBinding(inp, entries, bs, routes[i]);
      assert routes[i] == FqdnRoute(inp, entries, c)[0];
      assert c == b;
    }
    PassedIs(routes, req, HandlersOf(own));
    if own != [] {
      BindingHasRoute(inp, entries, bs, b);
      var i :| 0 <= i < |routes| && routes[i] == own[0];
      assert Decides(routes, req);
    }
  }

  // ---------------------------------------------------------------- the values of the limits

  function OrElse(n: nat, d: nat): nat { if n > 0 then n else d }

  /** The platform's own limits: one bucket for everybody, and one per IPv4 client. */
  ghost predicate PlatformValue(cfg: Config, ipv6: bool, h: Handler) {
    || (cfg.globalRps > 0 && h == RateLimit("global-platform", cfg.globalRps, OrElse(cfg.globalBurst, cfg.globalRps)))
    || (!ipv6 && cfg.perIpRps > 0
        && h == RateLimit("{http.request.remote_host}", cfg.perIpRps, OrElse(cfg.perIpBurst, cfg.perIpRps)))
  }

  /** The limits of a cap, all in the tenant's bucket; zero means none. */
  ghost predicate CapValue(c: TenantCap, h: Handler) {
    || (c.concurrent > 0 && h == ConcurrentCap("tenant-" + c.tenant, c.concurrent))
    || (c.bandwidth > 0 && h == BandwidthCap("tenant-" + c.tenant, c.bandwidth))
    || (c.rps > 0 && h == RateLimit("tenant-" + c.tenant, c.rps, OrElse(c.burst, c.rps)))
  }

  ghost predicate CrossValue(inp: Inputs, h: Handler) {
    && inp.cfg.aggregation && inp.cfg.globalRps > 0 && inp.globalCap.Some?
    && h == RateLimit("global-platform-cross-replica", inp.globalCap.value, inp.globalCap.value)
  }

  /** Rate and burst of an app: from the per-app cache, else from its row, else the configured defaults. */
  function AppRates(inp: Inputs, key: (string, string), row: RouteEntry): (nat, nat) {
    if key in inp.rateLimits then inp.rateLimits[key]
    else (match row.rps case Some(n) => n as nat case None => inp.cfg.rpsDefault,
          match row.burst case Some(n) => n as nat case None => inp.cfg.burstDefault)
  }

  /** A limit of so much per host; no rate, no limit, and no burst, the rate for it. */
  ghost predicate HostValue(rates: (nat, nat), h: Handler) {
    rates.0 > 0 && h == RateLimit("{http.request.host}", rates.0, OrElse(rates.1, rates.0))
  }

  lemma PlatformLimitValues(cfg: Config, ipv6: bool, h: Handler)
    ensures h in PlatformLimits(cfg, ipv6) <==> PlatformValue(cfg, ipv6, h)
  {
    SingleHandler(Global(cfg), h);
    SingleHandler(PerIp(cfg), h);
  }

  lemma SingleHandler(a: seq<Route>, h: Handler)
    requires |a| <= 1
    ensures h in HandlersOf(a) <==> a != [] && h in a[0].handlers
  {
    if a != [] { assert a[1..] == [] && HandlersOf(a[1..]) == []; }
  }

  lemma {:induction false} SectionValues(caps: seq<TenantCap>, route: TenantCap -> seq<Route>, h: Handler)
    requires LimitsTenants(route)
    ensures h in HandlersOf(PerTenant(caps, route)) <==> exists c :: c in caps && h in HandlersOf(route(c))
    decreases |caps|
  {
    if caps != [] {
      var n := |caps| - 1;
      SectionValues(caps[..n], route, h);
      HandlersOfConcat(PerTenant(caps[..n], route), route(caps[n]));
      assert caps == caps[..n] + [caps[n]];
    }
  }

  lemma TenantLimitValues(caps: seq<TenantCap>, h: Handler)
    ensures h in TenantLimits(caps) <==> exists c :: c in caps && CapValue(c, h)
  {
    SectionsLimitTenants();
    SectionValues(caps, ConcurrentRoute, h);
    SectionValues(caps, BandwidthRoute, h);
    SectionValues(caps, TenantRpsRoute, h);
    forall c ensures (h in HandlersOf(ConcurrentRoute(c)) || h in HandlersOf(BandwidthRoute(c))
                      || h in HandlersOf(TenantRpsRoute(c))) <==> CapValue(c, h) { RouteValues(c, h); }
  }

  lemma RouteValues(c: TenantCap, h: Handler)
    ensures (h in HandlersOf(ConcurrentRoute(c)) || h in HandlersOf(BandwidthRoute(c))
             || h in HandlersOf(TenantRpsRoute(c))) <==> CapValue(c, h)
  {
    SingleHandler(ConcurrentRoute(c), h);
    SingleHandler(BandwidthRoute(c), h);
    SingleHandler(TenantRpsRoute(c), h);
  }

  lemma {:induction false} OfTenantAre(caps: seq<TenantCap>, t: string, c: TenantCap)
    ensures c in OfTenant(caps, t) <==> c in caps && c.tenant == t
    decreases |caps|
  {
    if caps != [] {
      var n := |caps| - 1;
      OfTenantAre(caps[..n], t, c);
      assert caps == caps[..n] + [caps[n]];
    }
  }

  /** The row that an app's limit is read from comes first by deployment, legacy before named, then by worker. */
  lemma FirstOfSorted(entries: seq<RouteEntry>, key: (string, string), e: RouteEntry)
    requires key in KeysOf(entries)
    ensures var first := SortedGroup(entries, key)[0];
            && first in entries && (first.tenant, first.app) == key
            && (e in entries && (e.tenant, e.app) == key ==>
                  if first.deployment == e.deployment then LexLeq(first.worker, e.worker)
                  else first.deployment == None
                       || (e.deployment != None && LexLeq(first.deployment.value, e.deployment.value)))
  {
    var group := SortedGroup(entries, key);
    SortPermutes(GroupOf(entries, key), DeploymentLeq);
    PermutationMembers(group, GroupOf(entries, key));
    assert group[0] in Elements(group);
    GroupMembers(entries, key, group[0]);
    if e in entries && (e.tenant, e.app) == key {
      GroupMembers(entries, key, e);
      assert e in Elements(group);
      DeploymentOrder();
      SortSorts(GroupOf(entries, key), DeploymentLeq);
      var i :| 0 <= i < |group| && group[i] == e;
      LexTotal(e.worker, e.worker);
    }
  }

  lemma DeploymentOrder()
    ensures TotalPreorder(DeploymentLeq)
  {
    forall x: RouteEntry, y: RouteEntry ensures DeploymentLeq(x, y) || DeploymentLeq(y, x) {
      LexTotal(x.worker, y.worker);
      if x.deployment.Some? && y.deployment.Some? { LexTotal(x.deployment.value, y.deployment.value); }
    }
    forall x: RouteEntry, y: RouteEntry, z: RouteEntry | DeploymentLeq(x, y) && DeploymentLeq(y, z)
      ensures DeploymentLeq(x, z)
    {
      DeploymentTrans(x, y, z);
    }
  }

  lemma DeploymentTrans(x: RouteEntry, y: RouteEntry, z: RouteEntry)
    requires DeploymentLeq(x, y) && DeploymentLeq(y, z)
    ensures DeploymentLeq(x, z)
  {
    if x.deployment == y.deployment == z.deployment {
      LexTrans(x.worker, y.worker, z.worker);
    } else if x.deployment.Some? && y.deployment.Some? && z.deployment.Some? {
      var a, b, c := x.deployment.value, y.deployment.value, z.deployment.value;
      if a != b && b != c {
        LexTrans(a, b, c);
        LexTotal(a, b);
      }
    }
  }

  /** The handlers a request to an app's host meets, with their values. */
  lemma SyntheticHostMeets(inp: Inputs, entries: seq<RouteEntry>, fqdns: seq<Binding>, over: seq<string>,
      keys: seq<(string, string)>, key: (string, string), ipv6: bool, h: Handler)
    requires Elements(over) == OverCapTenants(inp, entries) && IsKeyOrder(entries, keys)
    requires key in KeysOf(entries) && TenantsApart(entries, key.0)
    requires forall c :: c in inp.tenantCaps ==> Apart(c.tenant, key.0)
    ensures var covered := key.1 != "" && '.' !in key.1;
            var group := SortedGroup(entries, key);
            h in Passed(Rendered(inp, entries, fqdns, over, keys), Request(IngressHost(key.0, key.1), ipv6)) <==>
            || PlatformValue(inp.cfg, ipv6, h)
            || (if covered && key.0 in inp.overCap then h == PaymentRequired
                else || (covered && exists c :: c in inp.tenantCaps && c.tenant == key.0 && CapValue(c, h))
                     || CrossValue(inp, h)
                     || HostValue(AppRates(inp, key, group[0]), h)
                     || h == ReverseProxy(Upstreams(inp, group)))
  {
    SyntheticHostLimits(inp, entries, fqdns, over, keys, key, ipv6);
    PlatformLimitValues(inp.cfg, ipv6, h);
    SingleHandler(CrossReplica(inp), h);
    TenantLimitValues(OfTenant(inp.tenantCaps, key.0), h);
    TenantLimitValues([], h);
    forall c ensures c in OfTenant(inp.tenantCaps, key.0) <==> c in inp.tenantCaps && c.tenant == key.0 {
      OfTenantAre(inp.tenantCaps, key.0, c);
    }
    AppHandlerValues(inp, entries, key, h);
  }

  lemma AppHandlerValues(inp: Inputs, entries: seq<RouteEntry>, key: (string, string), h: Handler)
    requires key in KeysOf(entries)
    ensures var group := SortedGroup(entries, key);
            h in AppRoute(inp, entries, key).handlers <==>
            HostValue(AppRates(inp, key, group[0]), h) || h == ReverseProxy(Upstreams(inp, group))
  {
  }

  /** For a custom domain a rate or burst of zero also means the configured default, unless it is a cached one. */
  function DomainRates(inp: Inputs, key: (string, string), row: RouteEntry): (nat, nat) {
    var rates := AppRates(inp, key, row);
    if key in inp.rateLimits then rates
    else (OrElse(rates.0, inp.cfg.rpsDefault), OrElse(rates.1, inp.cfg.burstDefault))
  }

  /** The handlers a request to a custom domain of an app with rows meets, with their values. */
  lemma CustomDomainMeets(inp: Inputs, entries: seq<RouteEntry>, fqdns: seq<Binding>, over: seq<string>,
      keys: seq<(string, string)>, b: Binding, ipv6: bool, i: int, h: Handler)
    requires Elements(keys) == KeysOf(entries) && DistinctNames(fqdns) && b in fqdns && !SuffixMatches(b.fqdn)
    requires IsLastRow(entries, (b.tenant, b.app), i)
    ensures h in Passed(Rendered(inp, entries, fqdns, over, keys), Request(b.fqdn, ipv6)) <==>
            || PlatformValue(inp.cfg, ipv6, h)
            || CrossValue(inp, h)
            || (if b.tenant in inp.overCap then h == PaymentRequired
                else || HostValue(DomainRates(inp, (b.tenant, b.app), entries[i]), h)
                     || h == ReverseProxy([Upstream(entries[i].worker, entries[i].port, None)]))
  {
    CustomDomainLimits(inp, entries, fqdns, over, keys, b, ipv6);
    PlatformLimitValues(inp.cfg, ipv6, h);
    SingleHandler(CrossReplica(inp), h);
    SingleHandler(FqdnRoute(inp, entries, b), h);
    DomainHandlerValues(inp, entries, b, i, h);
  }

  lemma DomainHandlerValues(inp: Inputs, entries: seq<RouteEntry>, b: Binding, i: int, h: Handler)
    requires IsLastRow(entries, (b.tenant, b.app), i)
    ensures var routes := FqdnRoute(inp, entries, b);
            && |routes| == 1
            && (h in routes[0].handlers <==>
                if b.tenant in inp.overCap then h == PaymentRequired
                else || HostValue(DomainRates(inp, (b.tenant, b.app), entries[i]), h)
                     || h == ReverseProxy([Upstream(entries[i].worker, entries[i].port, None)]))
  {
    var key := (b.tenant, b.app);
    var j := LastRowIs(entries, key);
    assert entries[i] in entries && i == j;
  }

  // ---------------------------------------------------------------- every rendered limiter starts

  /** The proxy accepts the handler: its modules refuse to be provisioned with a limit below one, and a
      token bucket needs a positive rate and burst. */
  ghost predicate Provisions(h: Handler) {
    match h
    case RateLimit(_, rps, burst) => rps > 0 && burst > 0
    case ConcurrentCap(_, limit) => TenantConcurrent.Provision(limit).Some?
    case BandwidthCap(_, bytesPerSec) => bytesPerSec > 0
    case _ => true
  }

  lemma {:induction false} RouteOfCap(caps: seq<TenantCap>, route: TenantCap -> seq<Route>, r: Route)
    returns (c: TenantCap)
    requires r in PerTenant(caps, route)
    ensures c in caps && r in route(c)
    decreases |caps|
  {
    c := caps[|caps| - 1];
    if r !in route(c) { c := RouteOfCap(caps[..|caps| - 1], route, r); }
  }

  lemma TenantRoutesProvision(caps: seq<TenantCap>, r: Route, h: Handler)
    requires r in ConcurrentRoutes(caps) || r in BandwidthRoutes(caps) || r in TenantRpsRoutes(caps)
    requires h in r.handlers
    ensures Provisions(h)
  {
    if r in ConcurrentRoutes(caps) {
      var c := RouteOfCap(caps, ConcurrentRoute, r);
    } else if r in BandwidthRoutes(caps) {
      var c := RouteOfCap(caps, BandwidthRoute, r);
    } else {
      var c := RouteOfCap(caps, TenantRpsRoute, r);
    }
  }

  lemma HostRoutesProvision(inp: Inputs, entries: seq<RouteEntry>, keys: seq<(string, string)>, bs: seq<Binding>,
      r: Route, h: Handler)
    requires Elements(keys) <= KeysOf(entries) && h in r.handlers
    requires r in AppRoutes(inp, entries, keys) || r in FqdnRoutes(inp, entries, bs)
    ensures Provisions(h)
  {
    if r in FqdnRoutes(inp, entries, bs) {
      var b := RouteOfBinding(inp, entries, bs, r);
      assert FqdnRoute(inp, entries, b)[0] == r;
      DomainRouteProvisions(inp, entries, b, h);
    } else {
      var i :| 0 <= i < |keys| && AppRoutes(inp, entries, keys)[i] == r;
      assert keys[i] in Elements(keys);
      AppHandlerValues(inp, entries, keys[i], h);
    }
  }

  lemma DomainRouteProvisions(inp: Inputs, entries: seq<RouteEntry>, b: Binding, h: Handler)
    requires FqdnRoute(inp, entries, b) != [] && h in FqdnRoute(inp, entries, b)[0].handlers
    ensures Provisions(h)
  {
    var i := LastRowIs(entries, (b.tenant, b.app));
    DomainHandlerValues(inp, entries, b, i, h);
  }

  /** Zero stands for "no limit" in every input, and no rendering contains a limiter the proxy would refuse:
      each is left out, or rendered with a positive rate, burst or count. The cross-replica cap is at least
      one by `ReplicaCaps.PerReplicaCap`. */
  lemma RenderedLimitsProvision(inp: Inputs, entries: seq<RouteEntry>, fqdns: seq<Binding>, over: seq<string>,
      keys: seq<(string, string)>, r: Route, h: Handler)
    requires Elements(keys) <= KeysOf(entries) && inp.globalCap != Some(0)
    requires r in Rendered(inp, entries, fqdns, over, keys) && h in r.handlers
    ensures Provisions(h)
  {
    var domains := Sort(fqdns, FqdnLeq);
    SectionOf(Global(inp.cfg), PerIp(inp.cfg), QuotaRoutes(over), ConcurrentRoutes(inp.tenantCaps),
        BandwidthRoutes(inp.tenantCaps),
              TenantRpsRoutes(inp.tenantCaps), CrossReplica(inp), AppRoutes(inp, entries, keys),
                  FqdnRoutes(inp, entries, domains), r);
    if r in ConcurrentRoutes(inp.tenantCaps) || r in BandwidthRoutes(inp.tenantCaps)
        || r in TenantRpsRoutes(inp.tenantCaps) {
      TenantRoutesProvision(inp.tenantCaps, r, h);
    } else if r in AppRoutes(inp, entries, keys) || r in FqdnRoutes(inp, entries, domains) {
      HostRoutesProvision(inp, entries, keys, domains, r, h);
    } else {
      PlatformRoutesProvision(inp, over, r, h);
    }
  }

  lemma PlatformRoutesProvision(inp: Inputs, over: seq<string>, r: Route, h: Handler)
    requires inp.globalCap != Some(0) && h in r.handlers
    requires r in Global(inp.cfg) || r in PerIp(inp.cfg) || r in QuotaRoutes(over) || r in CrossReplica(inp)
    ensures Provisions(h)
  {
  }

  lemma SectionOf(g: seq<Route>, i: seq<Route>, q: seq<Route>, c: seq<Route>, b: seq<Route>, t: seq<Route>,
      x: seq<Route>, a: seq<Route>, f: seq<Route>, r: Route)
    requires r in g + i + q + c + b + t + x + a + f
    ensures r in g || r in i || r in q || r in c || r in b || r in t || r in x || r in a || r in f
  {
  }
}
