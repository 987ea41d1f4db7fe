/** What the rendered routes do to a request: the first terminal route that matches decides
    (edge-ingress/src/caddy.rs, `render_routes`). */
module RenderMeaning {
  import opened Common
  import opened Text
  import opened Sorting
  import opened Routing
  import opened Render

  datatype Request = Request(host: string, ipv6: bool)

  datatype Outcome = Proxied(upstreams: seq<Upstream>) | Denied402 | NotRouted

  /** The tail that the anchored host pattern accepts: the dot inside the suffix is not escaped there,
      so any character may stand in its place. */
  predicate SuffixMatches(host: string) {
    && |host| >= 14 && host[|host| - 14] == '.'
    && host[|host| - 13..|host| - 4] == "edgecloud" && host[|host| - 4] != '\n' && host[|host| - 3..] == "dev"
  }

  /** ^<tenant>-[^.]+\.<suffix>$ */
  predicate TenantPattern(tenant: string, host: string) {
    && SuffixMatches(host) && |host| > |tenant| + 15
    && host[..|tenant| + 1] == tenant + "-" && '.' !in host[|tenant| + 1..|host| - 14]
  }

  predicate Matches(m: Matcher, req: Request) {
    match m
    case HostIs(host) => req.host == host
    case TenantHosts(tenant) => TenantPattern(tenant, req.host)
    case Everything => true
    case Ipv4 => !req.ipv6
    case AnyIp => true
  }

  function Final(r: Route): Outcome {
    if r.handlers == [] then NotRouted
    else match r.handlers[|r.handlers| - 1]
      case PaymentRequired => Denied402
      case ReverseProxy(upstreams) => Proxied(upstreams)
      case _ => NotRouted
  }

  function Verdict(routes: seq<Route>, req: Request): Outcome {
    if routes == [] then NotRouted
    else if routes[0].terminal && Matches(routes[0].matcher, req) then Final(routes[0])
    else Verdict(routes[1..], req)
  }

  /** Some terminal route of the list matches. */
  ghost predicate Decides(routes: seq<Route>, req: Request) {
    exists i :: 0 <= i < |routes| && routes[i].terminal && Matches(routes[i].matcher, req)
  }

  // ---------------------------------------------------------------- lists of routes

  lemma {:induction false} VerdictOfConcat(a: seq<Route>, b: seq<Route>, req: Request)
    ensures Verdict(a + b, req) == if Decides(a, req) then Verdict(a, req) else Verdict(b, req)
    decreases |a|
  {
    if a == [] {
      assert a + b == b;
    } else {
      VerdictOfConcat(a[1..], b, req);
      assert (a + b)[1..] == a[1..] + b;
      DecidesTail(a, req);
    }
  }

  lemma DecidesTail(a: seq<Route>, req: Request)
    requires a != []
    ensures Decides(a, req) <==> (a[0].terminal && Matches(a[0].matcher, req)) || Decides(a[1..], req)
  {
    if i :| 0 <= i < |a[1..]| && a[1..][i].terminal && Matches(a[1..][i].matcher, req) { assert a[i + 1] == a[1..][i]; }
    if i :| 0 < i < |a| && a[i].terminal && Matches(a[i].matcher, req) { assert a[1..][i - 1] == a[i]; }
  }

  /** When all deciding routes agree, the verdict is theirs. */
  lemma {:induction false} VerdictIs(a: seq<Route>, req: Request, o: Outcome)
    requires forall i :: 0 <= i < |a| && a[i].terminal && Matches(a[i].matcher, req) ==> Final(a[i]) == o
    ensures Verdict(a, req) == if Decides(a, req) then o else NotRouted
    decreases |a|
  {
    if a != [] {
      DecidesTail(a, req);
      VerdictIs(a[1..], req, o);
    }
  }

  ghost predicate PassThrough(a: seq<Route>) { forall r :: r in a ==> !r.terminal }

  /** At most one route per cap, for the hosts of its tenant, and not terminal. */
  ghost predicate LimitsTenants(route: TenantCap -> seq<Route>) {
    forall c :: |route(c)| <= 1 && forall r :: r in route(c) ==> !r.terminal && r.matcher == TenantHosts(c.tenant)
  }

  lemma {:induction false} SectionPassesThrough(caps: seq<TenantCap>, route: TenantCap -> seq<Route>)
    requires LimitsTenants(route)
    ensures PassThrough(PerTenant(caps, route))
    decreases |caps|
  {
    if caps != [] { SectionPassesThrough(caps[..|caps| - 1], route); }
  }

  lemma SectionsLimitTenants()
    ensures LimitsTenants(ConcurrentRoute) && LimitsTenants(BandwidthRoute) && LimitsTenants(TenantRpsRoute)
  {
  }

  lemma CapsPassThrough(caps: seq<TenantCap>)
    ensures PassThrough(ConcurrentRoutes(caps)) && PassThrough(BandwidthRoutes(caps))
        && PassThrough(TenantRpsRoutes(caps))
  {
    SectionsLimitTenants();
    SectionPassesThrough(caps, ConcurrentRoute);
    SectionPassesThrough(caps, BandwidthRoute);
    SectionPassesThrough(caps, TenantRpsRoute);
  }

  lemma PassThroughNeverDecides(a: seq<Route>, req: Request)
    requires PassThrough(a)
    ensures !Decides(a, req)
  {
    assert forall i :: 0 <= i < |a| ==> a[i] in a;
  }

  /** Limits do not decide; over-cap tenants come first, then the apps, then the custom domains. */
  lemma RenderedVerdict(inp: Inputs, entries: seq<RouteEntry>, fqdns: seq<Binding>, over: seq<string>,
      keys: seq<(string, string)>, req: Request)
    requires Elements(keys) <= KeysOf(entries)
    ensures Verdict(Rendered(inp, entries, fqdns, over, keys), req) ==
            if exists t :: t in over && TenantPattern(t, req.host) then Denied402
            else if Decides(AppRoutes(inp, entries, keys), req) then Verdict(AppRoutes(inp, entries, keys), req)
            else Verdict(FqdnRoutes(inp, entries, Sort(fqdns, FqdnLeq)), req)
  {
    var front, quota := Global(inp.cfg) + PerIp(inp.cfg), QuotaRoutes(over);
    var limits := ConcurrentRoutes(inp.tenantCaps) + BandwidthRoutes(inp.tenantCaps) + TenantRpsRoutes(inp.tenantCaps)
        + CrossReplica(inp);
    var apps, domains := AppRoutes(inp, entries, keys), FqdnRoutes(inp, entries, Sort(fqdns, FqdnLeq));
    Regroup5(inp, front, quota, limits, apps, domains);
    CapsPassThrough(inp.tenantCaps);
    PassThroughNeverDecides(front, req);
    PassThroughNeverDecides(limits, req);
    VerdictOfConcat(front, quota + (limits + (apps + domains)), req);
    VerdictOfConcat(quota, limits + (apps + domains), req);
    VerdictOfConcat(limits, apps + domains, req);
    VerdictOfConcat(apps, domains, req);
    QuotaVerdict(over, req);
  }

  lemma Regroup5(inp: Inputs, front: seq<Route>, quota: seq<Route>, limits: seq<Route>, apps: seq<Route>,
      domains: seq<Route>)
    requires limits ==
        ConcurrentRoutes(inp.tenantCaps) + BandwidthRoutes(inp.tenantCaps) + TenantRpsRoutes(inp.tenantCaps)
        + CrossReplica(inp)
    ensures front + quota + ConcurrentRoutes(inp.tenantCaps) + BandwidthRoutes(inp.tenantCaps)
        + TenantRpsRoutes(inp.tenantCaps)
            + CrossReplica(inp) + apps + domains == front + (quota + (limits + (apps + domains)))
  {
    var h, c, b, r, x := front + quota, ConcurrentRoutes(inp.tenantCaps), BandwidthRoutes(inp.tenantCaps),
        TenantRpsRoutes(inp.tenantCaps), CrossReplica(inp);
    Assoc(h, c, b);
    Assoc(h, c + b, r);
    Assoc(h, c + b + r, x);
    Assoc(h + limits, apps, domains);
    Assoc(h, limits, apps + domains);
    Assoc(front, quota, limits + (apps + domains));
  }

  lemma QuotaVerdict(over: seq<string>, req: Request)
    ensures Decides(QuotaRoutes(over), req) <==> exists t :: t in over && TenantPattern(t, req.host)
    ensures Decides(QuotaRoutes(over), req) ==> Verdict(QuotaRoutes(over), req) == Denied402
  {
    VerdictIs(QuotaRoutes(over), req, Denied402);
    if i :| 0 <= i < |over| && TenantPattern(over[i], req.host) {
      assert QuotaRoutes(over)[i].matcher == TenantHosts(over[i]);
    }
  }

  // ---------------------------------------------------------------- synthetic hosts

  /** The name `t` is `u`, a dash and more. */
  predicate Extends(t: string, u: string) { u + "-" <= t }

  /** Neither of two tenant names extends the other by a dash; true of all names without dashes. */
  predicate Apart(t: string, u: string) { !Extends(t, u) && !Extends(u, t) }

  /** A tenant's host is matched by that tenant's pattern only, and only for undotted names. */
  lemma PatternOfHost(t: string, a: string, u: string)
    requires Apart(t, u)
    ensures TenantPattern(u, IngressHost(t, a)) <==> u == t && a != "" && '.' !in a
  {
    var host := IngressHost(t, a);
    SyntheticSuffix(t, a);
    assert host[|t| + 1..|host| - 14] == a;
    assert host[..|t| + 1] == t + "-";
    if TenantPattern(u, host) { OnePrefix(t, u, host); }
  }

  /** Two tenant prefixes of one host are equal, or one of the names extends the other. */
  lemma OnePrefix(t: string, u: string, host: string)
    requires |host| > |t| && |host| > |u|
    requires host[..|t| + 1] == t + "-" && host[..|u| + 1] == u + "-"
    ensures t == u || Extends(t, u) || Extends(u, t)
  {
    if |t| == |u| {
      assert t == host[..|t| + 1][..|t|] && u == host[..|u| + 1][..|u|];
    } else if |t| < |u| {
      assert u == host[..|u|] by { assert (u + "-")[..|u|] == u; }
      assert u[..|t| + 1] == host[..|t| + 1];
    } else {
      assert t == host[..|t|] by { assert (t + "-")[..|t|] == t; }
      assert t[..|u| + 1] == host[..|u| + 1];
    }
  }

  /** When two tenants can share a host, exactly: some apps of theirs do if and only if one name extends the other. */
  lemma HostsShareIff(t: string, u: string)
    requires t != u
    ensures (exists a, b :: IngressHost(t, a) == IngressHost(u, b)) <==> Extends(t, u) || Extends(u, t)
  {
    if a, b :| IngressHost(t, a) == IngressHost(u, b) {
      var host := IngressHost(t, a);
      assert host[..|t| + 1] == t + "-" && host[..|u| + 1] == u + "-";
      OnePrefix(t, u, host);
    }
    if Extends(t, u) { SharedHost(t, u); }
    if Extends(u, t) { SharedHost(u, t); }
  }

  lemma SharedHost(t: string, u: string)
    requires Extends(t, u)
    ensures IngressHost(t, "api") == IngressHost(u, t[|u| + 1..] + "-api")
  {
    assert t == u + "-" + t[|u| + 1..];
    assert "-" + "api" == "-api";
    assert IngressHost(u, t[|u| + 1..] + "-api") == (u + "-" + t[|u| + 1..]) + "-" + "api" + SUFFIX;
  }

  /** Apart from that a host belongs to one app. */
  lemma HostsAreInjective(t: string, a: string, u: string, b: string)
    requires Apart(t, u)
    ensures IngressHost(t, a) == IngressHost(u, b) ==> t == u && a == b
  {
    if IngressHost(t, a) == IngressHost(u, b) {
      var host := IngressHost(t, a);
      assert host[..|t| + 1] == t + "-" && host[..|u| + 1] == u + "-";
      OnePrefix(t, u, host);
      assert host[|t| + 1..|host| - 14] == a && host[|u| + 1..|host| - 14] == b;
    }
  }

  /** Two tenants that share a host. */
  lemma DashesCollide()
    ensures IngressHost("acme-eu", "api") == IngressHost("acme", "eu-api")
  {
  }

  /** No tenant of the snapshot extends `t` or is extended by it. */
  ghost predicate TenantsApart(entries: seq<RouteEntry>, t: string) { forall e :: e in entries ==> Apart(e.tenant, t) }

  /** Names without dashes are apart. */
  lemma UndashedAreApart(t: string, u: string)
    requires '-' !in t && '-' !in u
    ensures Apart(t, u)
  {
    assert (u + "-")[|u|] == '-' && (t + "-")[|t|] == '-';
  }

  lemma AppVerdict(inp: Inputs, entries: seq<RouteEntry>, keys: seq<(string, string)>, key: (string, string),
      req: Request)
    requires Elements(keys) == KeysOf(entries) && key in KeysOf(entries) && TenantsApart(entries, key.0)
    requires req.host == IngressHost(key.0, key.1)
    ensures var apps := AppRoutes(inp, entries, keys);
            Decides(apps, req) && Verdict(apps, req) == Proxied(Upstreams(inp, SortedGroup(entries, key)))
  {
    var apps := AppRoutes(inp, entries, keys);
    var out := Proxied(Upstreams(inp, SortedGroup(entries, key)));
    forall i | 0 <= i < |apps| && Matches(apps[i].matcher, req) ensures Final(apps[i]) == out {
      assert keys[i] in Elements(keys);
      HostsAreInjective(keys[i].0, keys[i].1, key.0, key.1);
      assert keys[i] == key;
    }
    VerdictIs(apps, req, out);
    assert key in Elements(keys);
    var i :| 0 <= i < |keys| && keys[i] == key;
    assert apps[i] == AppRoute(inp, entries, key);
  }

  /** Routing is correct and tenant-isolated: in every snapshot, the host of an app with rows, whose tenant's name
      neither extends another one's nor is extended by one, ends in 402 exactly when its tenant is over quota and its
      name has no dot, and otherwise goes to exactly that app's upstreams, whatever custom domains are bound. */
  lemma SyntheticHostVerdict(inp: Inputs, entries: seq<RouteEntry>, fqdns: seq<Binding>, over: seq<string>,
      keys: seq<(string, string)>, key: (string, string), ipv6: bool)
    requires Elements(over) == OverCapTenants(inp, entries) && IsKeyOrder(entries, keys)
    requires key in KeysOf(entries) && TenantsApart(entries, key.0)
    ensures Verdict(Rendered(inp, entries, fqdns, over, keys), Request(IngressHost(key.0, key.1), ipv6)) ==
            if key.0 in inp.overCap && key.1 != "" && '.' !in key.1 then Denied402
            else Proxied(Upstreams(inp, SortedGroup(entries, key)))
  {
    var req := Request(IngressHost(key.0, key.1), ipv6);
    RenderedVerdict(inp, entries, fqdns, over, keys, req);
    AppVerdict(inp, entries, keys, key, req);
    var e :| e in entries && (e.tenant, e.app) == key;
    var blocked := key.0 in inp.overCap && key.1 != "" && '.' !in key.1;
    if blocked {
      assert key.0 in Elements(over);
      PatternOfHost(key.0, key.1, key.0);
      assert key.0 in over && TenantPattern(key.0, req.host);
    }
    forall t | t in over && TenantPattern(t, req.host) ensures blocked {
      assert t in Elements(over);
      PatternOfHost(key.0, key.1, t);
    }
  }

  /** The upstreams a synthetic host reaches are the rows of its own app, one per row, with the cached traffic-split
      weight or else the reported one; a single row has no weight. */
  lemma UpstreamsBelongToApp(inp: Inputs, entries: seq<RouteEntry>, key: (string, string), u: Upstream)
    requires key in KeysOf(entries)
    ensures |Upstreams(inp, SortedGroup(entries, key))| == |GroupOf(entries, key)|
    ensures u in Upstreams(inp, SortedGroup(entries, key)) <==>
            exists e ::
                e in entries && (e.tenant, e.app) == key && IsUpstreamOf(inp, |GroupOf(entries, key)| == 1, e, u)
  {
    var group, us := SortedGroup(entries, key), Upstreams(inp, SortedGroup(entries, key));
    SortPermutes(GroupOf(entries, key), DeploymentLeq);
    PermutationMembers(group, GroupOf(entries, key));
    if u in us {
      var i :| 0 <= i < |us| && us[i] == u;
      UpstreamAt(inp, group, i);
      assert group[i] in Elements(group);
      GroupMembers(entries, key, group[i]);
    }
    if e :| e in entries && (e.tenant, e.app) == key && IsUpstreamOf(inp, |group| == 1, e, u) {
      GroupMembers(entries, key, e);
      assert e in Elements(group);
      var i :| 0 <= i < |group| && group[i] == e;
      UpstreamAt(inp, group, i);
      assert us[i] == u;
    }
  }

  lemma UpstreamAt(inp: Inputs, group: seq<RouteEntry>, i: nat)
    requires i < |group|
    ensures |Upstreams(inp, group)| == |group| && IsUpstreamOf(inp, |group| == 1, group[i], Upstreams(inp, group)[i])
  {
  }

  /** The upstream for a row: its worker and port, and a weight unless it is the only row. */
  predicate IsUpstreamOf(inp: Inputs, single: bool, e: RouteEntry, u: Upstream) {
    && u.worker == e.worker && u.port == e.port
    && u.weight == if single then None else Some(WeightOf(inp, e))
  }

  /** The traffic split of a deployment if one is cached, else the weight its worker reported. */
  function WeightOf(inp: Inputs, e: RouteEntry): nat {
    var key := RouteKey(e.tenant, e.app, e.deployment);
    if e.deployment != None && key in inp.weights then inp.weights[key] else e.weight
  }

  // ---------------------------------------------------------------- custom domains

  ghost predicate DistinctNames(fqdns: seq<Binding>) {
    forall b, c :: b in fqdns && c in fqdns && b.fqdn == c.fqdn ==> b == c
  }

  /** What a custom domain should do. */
  function DomainOutcome(inp: Inputs, entries: seq<RouteEntry>, b: Binding): Outcome {
    var row := LastRow(entries, (b.tenant, b.app));
    if row == None then NotRouted
    else if b.tenant in inp.overCap then Denied402
    else Proxied([Upstream(row.value.worker, row.value.port, None)])
  }

  lemma {:induction false} RouteOfBinding(inp: Inputs, entries: seq<RouteEntry>, bs: seq<Binding>, r: Route)
    returns (c: Binding)
    requires r in FqdnRoutes(inp, entries, bs)
    ensures c in bs && FqdnRoute(inp, entries, c) == [r]
    decreases |bs|
  {
    var n := |bs| - 1;
    if r in FqdnRoutes(inp, entries, bs[..n]) {
      c := RouteOfBinding(inp, entries, bs[..n], r);
    } else {
      c := bs[n];
    }
  }

  lemma {:induction false} BindingHasRoute(inp: Inputs, entries: seq<RouteEntry>, bs: seq<Binding>, c: Binding)
    requires c in bs && FqdnRoute(inp, entries, c) != []
    ensures FqdnRoute(inp, entries, c)[0] in FqdnRoutes(inp, entries, bs)
    decreases |bs|
  {
    var n := |bs| - 1;
    if c != bs[n] {
      assert bs == bs[..n] + [bs[n]];
      BindingHasRoute(inp, entries, bs[..n], c);
    }
  }

  lemma DomainVerdict(inp: Inputs, entries: seq<RouteEntry>, bs: seq<Binding>, b: Binding, req: Request)
    requires b in bs && req.host == b.fqdn && forall c :: c in bs && c.fqdn == b.fqdn ==> c == b
    ensures Verdict(FqdnRoutes(inp, entries, bs), req) == DomainOutcome(inp, entries, b)
  {
    var routes := FqdnRoutes(inp, entries, bs);
    forall i | 0 <= i < |routes| && Matches(routes[i].matcher, req)
        ensures Final(routes[i]) == DomainOutcome(inp, entries, b) {
      var c := RouteOfBinding(inp, entries, bs, routes[i]);
      assert routes[i] == FqdnRoute(inp, entries, c)[0];
      assert c == b;
    }
    VerdictIs(routes, req, DomainOutcome(inp, entries, b));
    if FqdnRoute(inp, entries, b) != [] {
      BindingHasRoute(inp, entries, bs, b);
      var i :| 0 <= i < |routes| && routes[i] == FqdnRoute(inp, entries, b)[0];
      assert Decides(routes, req);
    }
  }

  /** What a name bound to an app answers: nothing if the app has no rows, and otherwise the 402 when its tenant is over
      quota, or the app's last row. */
  ghost predicate AnswersFor(inp: Inputs, entries: seq<RouteEntry>, b: Binding, outcome: Outcome) {
    if forall e :: e in entries ==> (e.tenant, e.app) != (b.tenant, b.app) then outcome == NotRouted
    else if b.tenant in inp.overCap then outcome == Denied402
    else exists i :: IsLastRow(entries, (b.tenant, b.app), i)
                     && outcome == Proxied([Upstream(entries[i].worker, entries[i].port, None)])
  }

  lemma DomainAnswer(inp: Inputs, entries: seq<RouteEntry>, b: Binding)
    ensures AnswersFor(inp, entries, b, DomainOutcome(inp, entries, b))
  {
    var i := LastRowIs(entries, (b.tenant, b.app));
  }

  /** A custom domain that is no app's host and that no over-cap tenant's pattern covers reaches nothing if its bound
      app has no rows, and otherwise the 402 or the last row of that app; a host bound to nothing reaches nothing. */
  lemma CustomDomainVerdict(inp: Inputs, entries: seq<RouteEntry>, fqdns: seq<Binding>, over: seq<string>,
      keys: seq<(string, string)>, b: Binding, ipv6: bool)
    requires Elements(keys) == KeysOf(entries) && DistinctNames(fqdns)
    requires forall t :: t in over ==> !TenantPattern(t, b.fqdn)
    requires forall k :: k in KeysOf(entries) ==> IngressHost(k.0, k.1) != b.fqdn
    ensures var outcome := Verdict(Rendered(inp, entries, fqdns, over, keys), Request(b.fqdn, ipv6));
            && (b in fqdns ==> AnswersFor(inp, entries, b, outcome))
            && ((forall c :: c in fqdns ==> c.fqdn != b.fqdn) ==> outcome == NotRouted)
  {
    var req := Request(b.fqdn, ipv6);
    var sorted := Sort(fqdns, FqdnLeq);
    RenderedVerdict(inp, entries, fqdns, over, keys, req);
    SortPermutes(fqdns, FqdnLeq);
    PermutationMembers(sorted, fqdns);
    assert forall c :: c in sorted <==> c in Elements(sorted);
    assert forall c :: c in fqdns <==> c in Elements(fqdns);
    var apps := AppRoutes(inp, entries, keys);
    forall i | 0 <= i < |apps| ensures !Matches(apps[i].matcher, req) { assert keys[i] in Elements(keys); }
    assert !Decides(apps, req);
    if b in fqdns {
      DomainVerdict(inp, entries, sorted, b, req);
      DomainAnswer(inp, entries, b);
    } else if forall c :: c in fqdns ==> c.fqdn != b.fqdn {
      var routes := FqdnRoutes(inp, entries, sorted);
      forall i | 0 <= i < |routes| ensures !Matches(routes[i].matcher, req) {
        var c := RouteOfBinding(inp, entries, sorted, routes[i]);
        assert routes[i] == FqdnRoute(inp, entries, c)[0];
      }
      VerdictIs(routes, req, NotRouted);
    }
  }

  /** Names outside the synthetic form meet those conditions whatever is deployed. */
  lemma OutsideSyntheticForm(fqdn: string, t: string, a: string)
    requires !SuffixMatches(fqdn)
    ensures !TenantPattern(t, fqdn) && IngressHost(t, a) != fqdn
  {
    SyntheticSuffix(t, a);
  }

  /** Routes for single hosts, in order of host. */
  ghost predicate SortedHosts(routes: seq<Route>) {
    && (forall r :: r in routes ==> r.matcher.HostIs?)
    && forall i, j :: 0 <= i < j < |routes| ==>
         routes[i] in routes && routes[j] in routes && LexLeq(routes[i].matcher.host, routes[j].matcher.host)
  }

  lemma FqdnOrder(fqdns: seq<Binding>)
    ensures Sorted(Sort(fqdns, FqdnLeq), FqdnLeq) && multiset(Sort(fqdns, FqdnLeq)) == multiset(fqdns)
  {
    forall x: Binding, y: Binding ensures FqdnLeq(x, y) || FqdnLeq(y, x) { LexTotal(x.fqdn, y.fqdn); }
    forall x: Binding, y: Binding, z: Binding | FqdnLeq(x, y) && FqdnLeq(y, z) ensures FqdnLeq(x, z) {
      LexTrans(x.fqdn, y.fqdn, z.fqdn);
    }
    SortSorts(fqdns, FqdnLeq);
  }

  lemma {:induction false} SortedDomainRoutes(inp: Inputs, entries: seq<RouteEntry>, bs: seq<Binding>)
    requires Sorted(bs, FqdnLeq)
    ensures SortedHosts(FqdnRoutes(inp, entries, bs))
    decreases |bs|
  {
    if bs != [] {
      var n := |bs| - 1;
      var before, last := FqdnRoutes(inp, entries, bs[..n]), FqdnRoute(inp, entries, bs[n]);
      SortedDomainRoutes(inp, entries, bs[..n]);
      forall r | r in before ensures LexLeq(r.matcher.host, bs[n].fqdn) {
        var c := RouteOfBinding(inp, entries, bs[..n], r);
        assert FqdnRoute(inp, entries, c)[0] == r;
        var i :| 0 <= i < n && bs[i] == c;
        assert FqdnLeq(bs[i], bs[n]);
      }
      AppendHost(before, last, bs[n].fqdn);
    }
  }

  lemma AppendHost(before: seq<Route>, last: seq<Route>, host: string)
    requires SortedHosts(before) && |last| <= 1 && forall r :: r in last ==> r.matcher == HostIs(host)
    requires forall r :: r in before ==> LexLeq(r.matcher.host, host)
    ensures SortedHosts(before + last)
  {
    var all := before + last;
    forall i, j | 0 <= i < j < |all|
      ensures all[i] in all && all[j] in all && LexLeq(all[i].matcher.host, all[j].matcher.host)
    {
      assert i < |before| && all[i] == before[i];
      if j < |before| { assert all[j] == before[j]; } else { assert all[j] in last; }
    }
  }

  /** A rendering ends with the routes of the custom domains, in order of name. */
  lemma DomainsAreSorted(inp: Inputs, entries: seq<RouteEntry>, fqdns: seq<Binding>, over: seq<string>,
      keys: seq<(string, string)>)
    requires Elements(keys) <= KeysOf(entries)
    ensures exists bs :: multiset(bs) == multiset(fqdns) && SortedHosts(FqdnRoutes(inp, entries, bs)) &&
              EndsWith(Rendered(inp, entries, fqdns, over, keys), FqdnRoutes(inp, entries, bs))
  {
    var bs := Sort(fqdns, FqdnLeq);
    FqdnOrder(fqdns);
    SortedDomainRoutes(inp, entries, bs);
    var all, tail := Rendered(inp, entries, fqdns, over, keys), FqdnRoutes(inp, entries, bs);
    assert all[|all| - |tail|..] == tail;
    assert EndsWith(all, tail);
  }

  predicate EndsWith(all: seq<Route>, tail: seq<Route>) { |tail| <= |all| && all[|all| - |tail|..] == tail }

  lemma SyntheticSuffix(t: string, a: string)
    ensures SuffixMatches(IngressHost(t, a))
  {
    var host := IngressHost(t, a);
    assert host[|host| - 14..] == SUFFIX;
    assert host[|host| - 14] == SUFFIX[0];
    assert host[|host| - 13..|host| - 4] == SUFFIX[1..10] == "edgecloud";
    assert host[|host| - 4] == SUFFIX[10] == '.';
    assert host[|host| - 3..] == SUFFIX[11..] == "dev";
  }
}
