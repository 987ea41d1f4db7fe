/** Pushing configuration to the proxy: full loads, incremental patches and the remembered previous state
    (edge-ingress/src/heartbeats.rs, `push_now` and the loop of `spawn_renderer`; edge-ingress/src/caddy.rs,
    `render_l4_routes` and `render_full`). */
module Push {
  import opened Common
  import opened Sorting
  import opened Routing
  import opened Render
  import opened Diff
  import L4 = L4Table
  import Limits = RenderLimits
  import Meaning = RenderMeaning

  // ---------------------------------------------------------------- the layer-4 tree

  /** The server behind one public port: closed when its tenant is over quota. */
  datatype L4Server = Closed | Forward(worker: string, upstream: u16)

  function ServerOf(e: L4.Entry, overCap: set<string>): L4Server {
    if e.key.tenant in overCap then Closed else Forward(e.worker, e.upstream)
  }

  predicate PortLeq(a: L4.Entry, b: L4.Entry) { a.port <= b.port }

  /** Servers by public port; a later entry replaces an earlier one on the same port. */
  function Servers(es: seq<L4.Entry>, overCap: set<string>): map<u16, L4Server>
    decreases |es|
  {
    if es == [] then map[] else
    var last := es[|es| - 1];
    Servers(es[..|es| - 1], overCap)[last.port := ServerOf(last, overCap)]
  }

  function RenderL4(es: seq<L4.Entry>, overCap: set<string>): map<u16, L4Server> { Servers(Sort(es, PortLeq), overCap) }

  lemma {:induction false} ServersAre(es: seq<L4.Entry>, overCap: set<string>, p: u16)
    requires forall e, f :: e in es && f in es && e.port == f.port ==> e == f
    ensures p in Servers(es, overCap) <==> exists e :: e in es && e.port == p
    ensures forall e :: e in es && e.port == p ==>
        p in Servers(es, overCap) && Servers(es, overCap)[p] == ServerOf(e, overCap)
    decreases |es|
  {
    if es != [] {
      var n := |es| - 1;
      ServersAre(es[..n], overCap, p);
      assert es == es[..n] + [es[n]];
    }
  }

  /** While live ports are distinct the tree has one server per live row and no other, on its port: closed when its
      tenant is over quota, and otherwise forwarding to its worker and upstream port. */
  lemma L4TreeIsExact(t: L4.Table, es: seq<L4.Entry>, overCap: set<string>)
    requires L4.IsSnapshot(t, es) && forall k, l :: k in t && l in t && t[k].port == t[l].port ==> k == l
    ensures forall k :: k in t ==> t[k].port in RenderL4(es, overCap)
    ensures forall k :: k in t && t[k].key.tenant in overCap ==> RenderL4(es, overCap)[t[k].port] == Closed
    ensures forall k :: k in t && t[k].key.tenant !in overCap ==>
        RenderL4(es, overCap)[t[k].port] == Forward(t[k].worker, t[k].upstream)
    ensures forall p :: p in RenderL4(es, overCap) ==> exists k :: k in t && t[k].port == p
  {
    var sorted := Sort(es, PortLeq);
    SortPermutes(es, PortLeq);
    PermutationMembers(sorted, es);
    assert forall e :: e in sorted <==> e in Elements(sorted);
    assert forall e :: e in es <==> e in Elements(es);
    forall k | k in t
      ensures t[k].port in RenderL4(es, overCap) && RenderL4(es, overCap)[t[k].port] == ServerOf(t[k], overCap)
    {
      ServersAre(sorted, overCap, t[k].port);
    }
    forall p | p in RenderL4(es, overCap) ensures exists k :: k in t && t[k].port == p {
      ServersAre(sorted, overCap, p);
      var e :| e in sorted && e.port == p;
      assert e.key in t;
    }
  }

  // ---------------------------------------------------------------- the proxy

  /** What the proxy answers to an admin call; a refused call may have taken effect, and a route put under an
      unknown id may or may not be created. */
  datatype Reply = Accepted(creates: bool) | Refused(applied: bool, creates: bool)

  function Deleted(routes: seq<Route>, id: string): seq<Route> {
    if routes == [] then [] else (if routes[0].id == Some(id) then [] else [routes[0]]) + Deleted(routes[1..], id)
  }

  /** Replaces the first route with the same id; otherwise adds the route if the proxy creates unknown ids. */
  function Upserted(routes: seq<Route>, route: Route, creates: bool): seq<Route> {
    if routes == [] then (if creates then [route] else [])
    else if routes[0].id == route.id then [route] + routes[1..]
    else [routes[0]] + Upserted(routes[1..], route, creates)
  }

  /** The routes carrying an id. */
  function WithId(routes: seq<Route>, id: string): seq<Route> {
    if routes == [] then [] else (if routes[0].id == Some(id) then [routes[0]] else []) + WithId(routes[1..], id)
  }

  /** The routes carrying the cross-replica id. */
  function CrossRoutes(routes: seq<Route>): seq<Route> { WithId(routes, CROSS_REPLICA_ID) }

  class Caddy {
    var routes: seq<Route>
    var layer4: map<u16, L4Server>
    /** Full loads attempted. */
    ghost var loads: nat

    method LoadConfig(routes: seq<Route>, layer4: map<u16, L4Server>, reply: Reply) returns (ok: bool)
      modifies this
      ensures ok == reply.Accepted? && loads == old(loads) + 1
      ensures ok ==> this.routes == routes && this.layer4 == layer4
    {
      loads := loads + 1;
      if reply.Accepted? || reply.applied {
        this.routes, this.layer4 := routes, layer4;
      }
      ok := reply.Accepted?;
    }

    method DeleteRoute(id: string, reply: Reply) returns (ok: bool)
      modifies this`routes
      ensures ok == reply.Accepted?
      ensures routes == Deleted(old(routes), id) || (routes == old(routes) && !ok)
    {
      if reply.Accepted? || reply.applied {
        routes := Deleted(routes, id);
      }
      ok := reply.Accepted?;
    }

    method UpsertRoute(route: Route, reply: Reply) returns (ok: bool)
      requires route.id.Some?
      modifies this`routes
      ensures ok == reply.Accepted?
      ensures routes == Upserted(old(routes), route, reply.creates) || (routes == old(routes) && !ok)
    {
      if reply.Accepted? || reply.applied {
        routes := Upserted(routes, route, reply.creates);
      }
      ok := reply.Accepted?;
    }
  }

  /** A delete takes all routes with its id and leaves those with any other id alone. */
  lemma {:induction false} DeleteTakesItsId(routes: seq<Route>, id: string, other: string)
    ensures WithId(Deleted(routes, id), other) == if other == id then [] else WithId(routes, other)
  {
    if routes != [] {
      DeleteTakesItsId(routes[1..], id, other);
      var head := if routes[0].id == Some(id) then [] else [routes[0]];
      ConcatWithId(head, Deleted(routes[1..], id), other);
      if head != [] { assert head[1..] == []; }
    }
  }

  /** An upsert replaces the first route with its id, or adds itself where there is none and the proxy creates it, and
      leaves the routes with any other id alone. */
  lemma {:induction false} UpsertShowsRoute(routes: seq<Route>, route: Route, creates: bool, id: string)
    requires route.id.Some?
    ensures WithId(Upserted(routes, route, creates), id) ==
            if route.id != Some(id) then WithId(routes, id)
            else if WithId(routes, id) != [] then [route] + WithId(routes, id)[1..]
            else if creates then [route] else []
  {
    if routes == [] {
      assert [route][1..] == [];
    } else if routes[0].id == route.id {
      assert ([route] + routes[1..])[1..] == routes[1..];
      if route.id == Some(id) { assert WithId(routes, id)[1..] == WithId(routes[1..], id); }
    } else {
      UpsertShowsRoute(routes[1..], route, creates, id);
      var rest := Upserted(routes[1..], route, creates);
      assert ([routes[0]] + rest)[1..] == rest;
    }
  }

  lemma {:induction false} ConcatWithId(a: seq<Route>, b: seq<Route>, id: string)
    ensures WithId(a + b, id) == WithId(a, id) + WithId(b, id)
    decreases |a|
  {
    if a == [] {
      assert a + b == b;
    } else {
      ConcatWithId(a[1..], b, id);
      assert (a + b)[1..] == a[1..] + b && (a + b)[0] == a[0];
      var head := if a[0].id == Some(id) then [a[0]] else [];
      assert WithId(a + b, id) == head + WithId(a[1..] + b, id);
      assert head + (WithId(a[1..], id) + WithId(b, id)) == (head + WithId(a[1..], id)) + WithId(b, id);
    }
  }

  lemma {:induction false} NoneWithId(a: seq<Route>, id: string)
    requires forall r :: r in a ==> r.id != Some(id)
    ensures WithId(a, id) == []
    decreases |a|
  {
    if a != [] { NoneWithId(a[1..], id); }
  }

  lemma CrossConcat(a: seq<Route>, b: seq<Route>)
    ensures CrossRoutes(a + b) == CrossRoutes(a) + CrossRoutes(b)
  {
    ConcatWithId(a, b, CROSS_REPLICA_ID);
  }

  lemma NoCross(a: seq<Route>)
    requires forall r :: r in a ==> r.id != Some(CROSS_REPLICA_ID)
    ensures CrossRoutes(a) == []
  {
    NoneWithId(a, CROSS_REPLICA_ID);
  }

  /** The cross-replica id has neither ':' nor '.'. */
  lemma NotCross(id: string)
    requires ':' in id || '.' in id
    ensures id != CROSS_REPLICA_ID
  {
    assert ':' !in CROSS_REPLICA_ID && '.' !in CROSS_REPLICA_ID;
  }

  /** Every route has an id with a ':'. */
  ghost predicate Marked(a: seq<Route>) { forall r :: r in a ==> r.id.Some? && ':' in r.id.value }

  lemma MarkedIsNotCross(a: seq<Route>)
    requires Marked(a)
    ensures CrossRoutes(a) == []
  {
    forall r | r in a ensures r.id != Some(CROSS_REPLICA_ID) { NotCross(r.id.value); }
    NoCross(a);
  }

  lemma {:induction false} SectionIsMarked(caps: seq<TenantCap>, route: TenantCap -> seq<Route>)
    requires forall c :: Marked(route(c))
    ensures Marked(PerTenant(caps, route))
    decreases |caps|
  {
    if caps != [] { SectionIsMarked(caps[..|caps| - 1], route); }
  }

  lemma CapsHaveOtherIds(caps: seq<TenantCap>)
    ensures CrossRoutes(ConcurrentRoutes(caps)) == CrossRoutes(BandwidthRoutes(caps)) ==
        CrossRoutes(TenantRpsRoutes(caps)) == []
  {
    forall c ensures Marked(ConcurrentRoute(c)) && Marked(BandwidthRoute(c)) && Marked(TenantRpsRoute(c)) {
    }
    SectionIsMarked(caps, ConcurrentRoute);
    SectionIsMarked(caps, BandwidthRoute);
    SectionIsMarked(caps, TenantRpsRoute);
    MarkedIsNotCross(ConcurrentRoutes(caps));
    MarkedIsNotCross(BandwidthRoutes(caps));
    MarkedIsNotCross(TenantRpsRoutes(caps));
  }

  /** Custom domain names have a dot. */
  ghost predicate Dotted(fqdns: seq<Binding>) { forall b :: b in fqdns ==> '.' in b.fqdn }

  lemma {:induction false} DomainsHaveOtherIds(inp: Inputs, entries: seq<RouteEntry>, bs: seq<Binding>)
    requires Dotted(bs)
    ensures CrossRoutes(FqdnRoutes(inp, entries, bs)) == []
    decreases |bs|
  {
    if bs != [] {
      var n := |bs| - 1;
      DomainsHaveOtherIds(inp, entries, bs[..n]);
      assert bs[n] in bs && ':' in ":quota-402-fqdn";
      NotCross(bs[n].fqdn);
      NotCross(bs[n].fqdn + ":quota-402-fqdn");
      NoCross(FqdnRoute(inp, entries, bs[n]));
      CrossConcat(FqdnRoutes(inp, entries, bs[..n]), FqdnRoute(inp, entries, bs[n]));
    }
  }

  lemma HostIsNotCross(tenant: string, app: string)
    ensures IngressHost(tenant, app) != CROSS_REPLICA_ID
  {
    var host := IngressHost(tenant, app);
    assert host[|host| - 14] == '.';
    NotCross(host);
  }

  lemma QuotaHasOtherIds(over: seq<string>)
    ensures CrossRoutes(QuotaRoutes(over)) == []
  {
    var quota := QuotaRoutes(over);
    forall r | r in quota ensures r.id != Some(CROSS_REPLICA_ID) {
      var i :| 0 <= i < |quota| && quota[i] == r;
      assert ':' in ":quota-402-synthetic";
      NotCross(over[i] + ":quota-402-synthetic");
    }
    NoCross(quota);
  }

  lemma AppsHaveOtherIds(inp: Inputs, entries: seq<RouteEntry>, keys: seq<(string, string)>)
    requires Elements(keys) <= KeysOf(entries)
    ensures CrossRoutes(AppRoutes(inp, entries, keys)) == []
  {
    var apps := AppRoutes(inp, entries, keys);
    forall r | r in apps ensures r.id != Some(CROSS_REPLICA_ID) {
      var i :| 0 <= i < |apps| && apps[i] == r;
      HostIsNotCross(keys[i].0, keys[i].1);
    }
    NoCross(apps);
  }

  /** A full rendering has the cross-replica route as configured and nothing else under its id. */
  lemma CrossOfRendered(inp: Inputs, entries: seq<RouteEntry>, fqdns: seq<Binding>, over: seq<string>,
      keys: seq<(string, string)>)
    requires Elements(keys) <= KeysOf(entries) && Dotted(fqdns)
    ensures CrossRoutes(Rendered(inp, entries, fqdns, over, keys)) == CrossReplica(inp)
  {
    var sorted := Sort(fqdns, FqdnLeq);
    SortPermutes(fqdns, FqdnLeq);
    PermutationMembers(sorted, fqdns);
    assert forall b :: b in sorted ==> b in Elements(fqdns);
    DomainsHaveOtherIds(inp, entries, sorted);
    CapsHaveOtherIds(inp.tenantCaps);
    var quota, apps := QuotaRoutes(over), AppRoutes(inp, entries, keys);
    QuotaHasOtherIds(over);
    AppsHaveOtherIds(inp, entries, keys);
    NoCross(Global(inp.cfg));
    NoCross(PerIp(inp.cfg));
    SumOfSections(Global(inp.cfg), PerIp(inp.cfg), quota, ConcurrentRoutes(inp.tenantCaps),
        BandwidthRoutes(inp.tenantCaps),
                  TenantRpsRoutes(inp.tenantCaps), CrossReplica(inp), apps, FqdnRoutes(inp, entries, sorted));
    var x := CrossReplica(inp);
    assert x != [] ==> x[1..] == [] && CrossRoutes(x[1..]) == [] && CrossRoutes(x) == [x[0]];
  }

  lemma SumOfSections(g: seq<Route>, i: seq<Route>, q: seq<Route>, c: seq<Route>, b: seq<Route>, r: seq<Route>,
      x: seq<Route>, a: seq<Route>, f: seq<Route>)
    requires CrossRoutes(g) == CrossRoutes(i) == CrossRoutes(q) == CrossRoutes(c) == CrossRoutes(b) ==
        CrossRoutes(r) == CrossRoutes(a) == CrossRoutes(f) == []
    ensures CrossRoutes(g + i + q + c + b + r + x + a + f) == CrossRoutes(x)
  {
    CrossConcat(g, i);
    CrossConcat(g + i, q);
    CrossConcat(g + i + q, c);
    CrossConcat(g + i + q + c, b);
    CrossConcat(g + i + q + c + b, r);
    CrossConcat(g + i + q + c + b + r, x);
    CrossConcat(g + i + q + c + b + r + x, a);
    CrossConcat(g + i + q + c + b + r + x + a, f);
  }

  // ---------------------------------------------------------------- single routes for patches

  function SingleRoute(inp: Inputs, e: RouteEntry): Route {
    var host := IngressHost(e.tenant, e.app);
    Route(Some(host), HostIs(host), AppLimit(inp, (e.tenant, e.app), e) + [ReverseProxy([Weighted(inp, e)])], true)
  }

  /** A patched custom domain goes to the first row of its app in snapshot order. */
  function SingleFqdnRoute(inp: Inputs, entries: seq<RouteEntry>, b: Binding): Option<Route> {
    var group := GroupOf(entries, (b.tenant, b.app));
    if group == [] then None
    else Some(Route(Some(b.fqdn), HostIs(b.fqdn),
                    AppLimit(inp, (b.tenant, b.app), group[0])
                        + [ReverseProxy([Upstream(group[0].worker, group[0].port, None)])], true))
  }

  /** What a patched app route does: a request to its host goes to the one row that was added or changed, with the
      cached traffic-split weight if there is one, and no other request is decided. */
  lemma PatchedAppVerdict(inp: Inputs, e: RouteEntry, req: Meaning.Request)
    ensures GoesTo(SingleRoute(inp, e), e.tenant + "-" + e.app + ".edgecloud.dev",
                   Upstream(e.worker, e.port, Some(Meaning.WeightOf(inp, e))), req)
  {
    assert [SingleRoute(inp, e)][1..] == [];
  }

  /** What a patched custom domain does: nothing is put for an app without rows; otherwise a request to the name goes to
      the first row of its app, where a full rendering takes the last one, and over quota or not. */
  lemma PatchedDomainVerdict(inp: Inputs, entries: seq<RouteEntry>, b: Binding, req: Meaning.Request)
    ensures SingleFqdnRoute(inp, entries, b) == None <==>
            forall e :: e in entries ==> (e.tenant, e.app) != (b.tenant, b.app)
    ensures SingleFqdnRoute(inp, entries, b).Some? ==>
            exists i :: IsFirstRow(entries, (b.tenant, b.app), i) &&
              GoesTo(SingleFqdnRoute(inp, entries, b).value, b.fqdn,
                  Upstream(entries[i].worker, entries[i].port, None), req)
  {
    var key := (b.tenant, b.app);
    if GroupOf(entries, key) == [] {
      forall e | e in entries ensures (e.tenant, e.app) != key { GroupMembers(entries, key, e); }
    } else {
      var i := FirstOfGroup(entries, key);
      var route := SingleFqdnRoute(inp, entries, b).value;
      assert [route][1..] == [];
      assert entries[i] in entries && IsFirstRow(entries, key, i);
      assert GoesTo(route, b.fqdn, Upstream(entries[i].worker, entries[i].port, None), req);
    }
  }

  /** The route is installed under the host and sends its requests, and no others, to the one upstream. */
  ghost predicate GoesTo(route: Route, host: string, u: Upstream, req: Meaning.Request) {
    route.id == Some(host) &&
    Meaning.Verdict([route], req) == if req.host == host then Meaning.Proxied([u]) else Meaning.NotRouted
  }

  /** When a patched custom domain answers as a full rendering does, exactly: its tenant is within quota, and the first
      and the last row of its app have one worker and port. */
  lemma PatchedDomainAgreesIff(inp: Inputs, entries: seq<RouteEntry>, b: Binding, i: int, j: int, ipv6: bool)
    requires IsFirstRow(entries, (b.tenant, b.app), i) && IsLastRow(entries, (b.tenant, b.app), j)
    ensures SingleFqdnRoute(inp, entries, b).Some?
    ensures Meaning.AnswersFor(inp, entries, b,
                Meaning.Verdict([SingleFqdnRoute(inp, entries, b).value], Meaning.Request(b.fqdn, ipv6))) <==>
            b.tenant !in inp.overCap && (entries[i].worker, entries[i].port) == (entries[j].worker, entries[j].port)
  {
    var key, req := (b.tenant, b.app), Meaning.Request(b.fqdn, ipv6);
    assert entries[i] in entries;
    PatchedDomainVerdict(inp, entries, b, req);
    var k :| IsFirstRow(entries, key, k) &&
             GoesTo(SingleFqdnRoute(inp, entries, b).value, b.fqdn, Upstream(entries[k].worker, entries[k].port, None),
                 req);
    assert k == i;
    assert forall l :: IsLastRow(entries, key, l) ==> l == j;
  }

  /** The handlers of a patched app route: the limit of the row's own values, if any, and the proxy. */
  lemma PatchedAppHandlers(inp: Inputs, e: RouteEntry, h: Handler)
    ensures h in SingleRoute(inp, e).handlers <==>
            || Limits.HostValue(Limits.AppRates(inp, (e.tenant, e.app), e), h)
            || h == ReverseProxy([Upstream(e.worker, e.port, Some(Meaning.WeightOf(inp, e)))])
  {
  }

  /** Likewise for a custom domain, with the values of its app's first row. */
  lemma PatchedDomainHandlers(inp: Inputs, entries: seq<RouteEntry>, b: Binding, i: int, h: Handler)
    requires IsFirstRow(entries, (b.tenant, b.app), i)
    ensures SingleFqdnRoute(inp, entries, b).Some?
    ensures h in SingleFqdnRoute(inp, entries, b).value.handlers <==>
            || Limits.HostValue(Limits.AppRates(inp, (b.tenant, b.app), entries[i]), h)
            || h == ReverseProxy([Upstream(entries[i].worker, entries[i].port, None)])
  {
    var key := (b.tenant, b.app);
    GroupMembers(entries, key, entries[i]);
    var j := FirstOfGroup(entries, key);
    assert i == j;
  }

  /** The first row of the app. */
  ghost predicate IsFirstRow(entries: seq<RouteEntry>, key: (string, string), i: int) {
    && 0 <= i < |entries| && (entries[i].tenant, entries[i].app) == key
    && forall j :: 0 <= j < i ==> (entries[j].tenant, entries[j].app) != key
  }

  lemma {:induction false} FirstOfGroup(entries: seq<RouteEntry>, key: (string, string)) returns (i: nat)
    requires GroupOf(entries, key) != []
    ensures IsFirstRow(entries, key, i) && GroupOf(entries, key)[0] == entries[i]
    decreases |entries|
  {
    var n := |entries| - 1;
    if GroupOf(entries[..n], key) != [] {
      i := FirstOfGroup(entries[..n], key);
    } else {
      i := n;
      forall j | 0 <= j < n ensures (entries[j].tenant, entries[j].app) != key {
        GroupMembers(entries[..n], key, entries[..n][j]);
      }
    }
  }

  function BindingOf(fqdns: seq<Binding>, name: string): (r: Option<Binding>)
    ensures r.Some? ==> r.value in fqdns && r.value.fqdn == name
    ensures r == None <==> name !in Names(fqdns)
  {
    if fqdns == [] then None
    else if fqdns[0].fqdn == name then Some(fqdns[0])
    else
      assert Names(fqdns) == {fqdns[0].fqdn} + Names(fqdns[1..]);
      BindingOf(fqdns[1..], name)
  }

  // ---------------------------------------------------------------- the renderer

  ghost predicate NoneIsCross(ids: seq<string>) { forall id :: id in ids ==> id != CROSS_REPLICA_ID }

  ghost predicate AllDotted(names: seq<string>) { forall f :: f in names ==> '.' in f }

  /** Every route has an id, and none has the cross-replica one. */
  ghost predicate OtherIds(routes: seq<Route>) {
    forall r :: r in routes ==> r.id.Some? && r.id.value != CROSS_REPLICA_ID
  }

  datatype PreviousState = PreviousState(entries: seq<RouteEntry>, fqdns: seq<Binding>, l4: seq<L4.Entry>,
      cap: Option<nat>)

  /** What one push reads, and the proxy's answer to its n-th admin call. `capRead` is the cross-replica cap
      that gets recorded; the cap that gets rendered is read separately, in `inp`. */
  datatype PushInput = PushInput(entries: seq<RouteEntry>, fqdns: seq<Binding>, l4: seq<L4.Entry>, inp: Inputs,
      capRead: Option<nat>, reply: nat -> Reply)

  function Recorded(input: PushInput): PreviousState {
    PreviousState(input.entries, input.fqdns, input.l4, input.capRead)
  }

  function Max(a: nat, b: nat): nat { if a < b then b else a }

  /** A full load is due: the layer-4 rows or the cap changed, or more than a fifth of the routes did. */
  predicate ReloadDue(prev: PreviousState, input: PushInput, changes: nat) {
    prev.l4 != input.l4 || prev.cap != input.capRead || changes * 5 > Max(Max(|input.entries|, |prev.entries|), 1)
  }

  /** The condition spelled out: with no changes there is no full load on account of them, and otherwise there is one
      exactly when they are more than a fifth of the rows before and of the rows now. */
  lemma ReloadDueIff(prev: PreviousState, input: PushInput, changes: nat)
    ensures ReloadDue(prev, input, changes) <==>
            || prev.l4 != input.l4
            || prev.cap != input.capRead
            || (changes > 0 && 5 * changes > |prev.entries| && 5 * changes > |input.entries|)
  {
  }

  class Renderer {
    const caddy: Caddy
    const cfg: Config
    var previous: Option<PreviousState>
    /** Quota state and cap that the last full load rendered. */
    ghost var quotaShown: set<string>
    ghost var capShown: Option<nat>

    /** Whatever is remembered as pushed, the proxy's layer-4 tree shows the remembered rows under the quota state,
        and its cross-replica route the cap, of the last full load. */
    ghost predicate Synced()
      reads this, caddy
    {
      previous.Some? ==>
        && caddy.layer4 == RenderL4(previous.value.l4, quotaShown)
        && CrossRoutes(caddy.routes) == CrossFor(cfg, capShown)
        && Dotted(previous.value.fqdns)
    }

    /** The remembered cap is the one shown. */
    ghost predicate CapRecorded()
      reads this
    {
      previous.Some? ==> previous.value.cap == capShown
    }

    ghost predicate Admissible(input: PushInput)
      reads this
    {
      input.inp.cfg == cfg && Dotted(input.fqdns)
    }

    constructor (caddy: Caddy, cfg: Config)
      ensures this.caddy == caddy && this.cfg == cfg && previous == None
    {
      this.caddy, this.cfg, previous := caddy, cfg, None;
    }

    method FullLoad(input: PushInput) returns (ok: bool, ghost over: seq<string>, ghost keys: seq<(string, string)>)
      requires Admissible(input)
      modifies this, caddy
      ensures Synced() && caddy.loads == old(caddy.loads) + 1
      ensures ok ==> previous == Some(Recorded(input))
      ensures !ok ==> previous == None
      ensures quotaShown == input.inp.overCap && capShown == input.inp.globalCap
      ensures IsKeyOrder(input.entries, keys) && Elements(over) == OverCapTenants(input.inp, input.entries)
      ensures ok ==> caddy.routes == Rendered(input.inp, input.entries, input.fqdns, over, keys)
      ensures ok ==> caddy.layer4 == RenderL4(input.l4, input.inp.overCap)
    {
      previous := None;
      var routes;
      routes, over, keys := RenderRoutes(input.inp, input.entries, input.fqdns);
      CrossOfRendered(input.inp, input.entries, input.fqdns, over, keys);
      ok := caddy.LoadConfig(routes, RenderL4(input.l4, input.inp.overCap), input.reply(0));
      quotaShown, capShown := input.inp.overCap, input.inp.globalCap;
      if ok {
        previous := Some(Recorded(input));
      }
    }

    method DeleteAll(ids: seq<string>, reply: nat -> Reply, first: nat) returns (ok: bool)
      requires NoneIsCross(ids)
      modifies caddy`routes
      ensures CrossRoutes(caddy.routes) == CrossRoutes(old(caddy.routes))
      ensures ok ==> caddy.routes == AllDeleted(old(caddy.routes), ids)
    {
      ok := true;
      var i := 0;
      while i < |ids| && ok
        invariant 0 <= i <= |ids|
        invariant ok ==> AllDeleted(old(caddy.routes), ids) == AllDeleted(caddy.routes, ids[i..])
        invariant CrossRoutes(caddy.routes) == CrossRoutes(old(caddy.routes))
      {
        assert ids[i] in ids && ids[i..][0] == ids[i] && ids[i..][1..] == ids[i + 1..];
        DeleteTakesItsId(caddy.routes, ids[i], CROSS_REPLICA_ID);
        ok := caddy.DeleteRoute(ids[i], reply(first + i));
        i := i + 1;
      }
    }

    method PutOne(route: Route, reply: Reply) returns (ok: bool)
      requires route.id.Some? && route.id.value != CROSS_REPLICA_ID
      modifies caddy`routes
      ensures CrossRoutes(caddy.routes) == CrossRoutes(old(caddy.routes))
      ensures ok ==> caddy.routes == Upserted(old(caddy.routes), route, reply.creates)
    {
      UpsertShowsRoute(caddy.routes, route, reply.creates, CROSS_REPLICA_ID);
      ok := caddy.UpsertRoute(route, reply);
    }

    method PutAll(routes: seq<Route>, reply: nat -> Reply, first: nat) returns (ok: bool)
      requires OtherIds(routes)
      modifies caddy`routes
      ensures CrossRoutes(caddy.routes) == CrossRoutes(old(caddy.routes))
      ensures ok ==> caddy.routes == AllPut(old(caddy.routes), routes, reply, first)
    {
      ok := true;
      var i := 0;
      while i < |routes| && ok
        invariant 0 <= i <= |routes|
        invariant ok ==>
            AllPut(old(caddy.routes), routes, reply, first) == AllPut(caddy.routes, routes[i..], reply, first + i)
        invariant CrossRoutes(caddy.routes) == CrossRoutes(old(caddy.routes))
      {
        assert routes[i] in routes;
        PutStep(caddy.routes, routes, i, reply, first);
        ok := PutOne(routes[i], reply(first + i));
        i := i + 1;
      }
    }

    /** The deletes of a patch: apps, then names. */
    method DeletePhase(input: PushInput, removed: seq<string>, fqdnRemoved: seq<string>) returns (ok: bool)
      requires NoneIsCross(removed) && NoneIsCross(fqdnRemoved)
      modifies caddy`routes
      ensures CrossRoutes(caddy.routes) == CrossRoutes(old(caddy.routes))
      ensures ok ==> caddy.routes == AfterDeletes(old(caddy.routes), removed, fqdnRemoved)
    {
      ok := DeleteAll(removed, input.reply, 0);
      if ok {
        ok := DeleteAll(fqdnRemoved, input.reply, |removed|);
      }
    }

    /** The upserts of a patch, from the `first` answer on: apps, then names. */
    method PutPhase(input: PushInput, changed: seq<RouteEntry>, fqdnAdded: seq<string>, first: nat) returns (ok: bool)
      requires AllDotted(fqdnAdded)
      modifies caddy`routes
      ensures CrossRoutes(caddy.routes) == CrossRoutes(old(caddy.routes))
      ensures ok ==> caddy.routes == AfterPuts(old(caddy.routes), input, changed, fqdnAdded, first)
    {
      AppPutsHaveOtherIds(input.inp, changed);
      DomainPutsHaveOtherIds(input, fqdnAdded);
      ok := PutAll(AppPuts(input.inp, changed), input.reply, first);
      if ok {
        ok := PutAll(DomainPuts(input, fqdnAdded), input.reply, first + |changed|);
      }
    }

    /** Deletes and upserts route by route; stops at the first refusal. */
    method Patch(input: PushInput, removed: seq<string>, changed: seq<RouteEntry>, fqdnAdded: seq<string>,
        fqdnRemoved: seq<string>)
      returns (ok: bool)
      requires NoneIsCross(removed) && NoneIsCross(fqdnRemoved)
      requires AllDotted(fqdnAdded)
      modifies caddy`routes
      ensures CrossRoutes(caddy.routes) == CrossRoutes(old(caddy.routes))
      ensures ok ==> caddy.routes == RoutesPatched(old(caddy.routes), input, removed, changed, fqdnAdded, fqdnRemoved)
    {
      ok := DeletePhase(input, removed, fqdnRemoved);
      if ok {
        ok := PutPhase(input, changed, fqdnAdded, |removed| + |fqdnRemoved|);
      }
    }

    /** One push. A full load shows what this push read; without one the quota state and the cap shown stay those
        of the last full load, and the cap recorded is still the one shown. */
    method PushNow(input: PushInput) returns (ok: bool, ghost loaded: bool, ghost changes: nat)
      requires Synced() && Admissible(input)
      modifies this, caddy
      ensures Synced()
      ensures ok ==> previous == Some(Recorded(input))
      ensures ok ==> previous.value.entries == input.entries && previous.value.fqdns == input.fqdns
      ensures ok ==> previous.value.l4 == input.l4 && previous.value.cap == input.capRead
      ensures !ok ==> previous == None
      ensures caddy.loads == old(caddy.loads) + if loaded then 1 else 0
      ensures loaded <==> old(previous) == None || ReloadDue(old(previous).value, input, changes)
      ensures loaded ==> quotaShown == input.inp.overCap && capShown == input.inp.globalCap
      ensures loaded && ok ==> FullyShown(caddy.routes, input)
      ensures !loaded ==> quotaShown == old(quotaShown) && capShown == old(capShown)
      ensures old(CapRecorded()) && (loaded ==> input.capRead == input.inp.globalCap) ==> CapRecorded()
      ensures old(previous).Some? ==> IsChangeCount(old(previous).value, input, changes)
      ensures !loaded && ok ==> IsPatch(old(previous).value, input, old(caddy.routes), caddy.routes)
    {
      changes := 0;
      loaded := true;
      if previous == None {
        ghost var over, keys;
        ok, over, keys := FullLoad(input);
        return;
      }
      var prev := previous.value;
      previous := None;
      var added, removed, changed := DiffRoutes(prev.entries, input.entries);
      var (fqdnAdded, fqdnRemoved) := DiffFqdns(prev.fqdns, input.fqdns);
      var totalChanges := |added| + |removed| + |changed| + |fqdnAdded| + |fqdnRemoved|;
      changes := totalChanges;
      if ReloadDue(prev, input, totalChanges) {
        ghost var over, keys;
        ok, over, keys := FullLoad(input);
        return;
      }
      loaded := false;
      DiffIdsAreMarked(prev, input, added, removed, changed);
      ok := Patch(input, removed, added + changed, fqdnAdded, fqdnRemoved);
      if ok {
        previous := Some(Recorded(input));
      }
    }

    /** One turn of the renderer's loop: a refused push leaves nothing remembered. */
    method Turn(input: PushInput) returns (ok: bool, ghost loaded: bool)
      requires Synced() && Admissible(input)
      modifies this, caddy
      ensures Synced() && previous == if ok then Some(Recorded(input)) else None
      ensures loaded ==> quotaShown == input.inp.overCap && capShown == input.inp.globalCap
      ensures !loaded ==> quotaShown == old(quotaShown) && capShown == old(capShown)
      ensures old(CapRecorded()) && input.capRead == input.inp.globalCap ==> CapRecorded()
    {
      ghost var changes;
      ok, loaded, changes := PushNow(input);
      if !ok {
        previous := None;
      }
    }

    /** The renderer's loop: a refused push leaves nothing remembered, so the next one loads in full. `last` is the
        last full load of the run, or -1: what the proxy shows is what that push read, under the rows now recorded. */
    method Serve(inputs: seq<PushInput>) returns (results: seq<bool>, ghost last: int)
      requires Synced() && forall i :: 0 <= i < |inputs| ==> Admissible(inputs[i])
      modifies this, caddy
      ensures Synced() && |results| == |inputs| && -1 <= last < |inputs|
      ensures |inputs| > 0 ==> previous == if results[|inputs| - 1] then Some(Recorded(inputs[|inputs| - 1])) else None
      ensures last >= 0 ==> quotaShown == inputs[last].inp.overCap && capShown == inputs[last].inp.globalCap
      ensures last == -1 ==> quotaShown == old(quotaShown) && capShown == old(capShown)
      ensures old(CapRecorded()) && ReadOnce(inputs) ==> CapRecorded()
    {
      results, last := [], -1;
      for i := 0 to |inputs|
        invariant Synced() && |results| == i && -1 <= last < i
        invariant i > 0 ==> previous == if results[i - 1] then Some(Recorded(inputs[i - 1])) else None
        invariant last >= 0 ==> quotaShown == inputs[last].inp.overCap && capShown == inputs[last].inp.globalCap
        invariant last == -1 ==> quotaShown == old(quotaShown) && capShown == old(capShown)
        invariant old(CapRecorded()) && ReadOnce(inputs) ==> CapRecorded()
      {
        ghost var loaded;
        var ok;
        ok, loaded := Turn(inputs[i]);
        results := results + [ok];
        if loaded {
          last := i;
        }
      }
    }
  }

  /** Every push renders the cap it records. */
  ghost predicate ReadOnce(inputs: seq<PushInput>) {
    forall i :: 0 <= i < |inputs| ==> inputs[i].capRead == inputs[i].inp.globalCap
  }

  /** `after` is `before` with the differences between what was remembered and what was read put through. */
  ghost predicate IsPatch(prev: PreviousState, input: PushInput, before: seq<Route>, after: seq<Route>) {
    exists added, removed, changed ::
      && IsDiff(ById(prev.entries), ById(input.entries), added, removed, changed)
      && var (plus, minus) := DiffFqdns(prev.fqdns, input.fqdns);
         after == RoutesPatched(before, input, removed, added + changed, plus, minus)
  }

  /** `changes` counts the added, removed and changed routes and names. */
  ghost predicate IsChangeCount(prev: PreviousState, input: PushInput, changes: nat) {
    exists added, removed, changed ::
      && IsDiff(ById(prev.entries), ById(input.entries), added, removed, changed)
      && var (plus, minus) := DiffFqdns(prev.fqdns, input.fqdns);
         changes == |added| + |removed| + |changed| + |plus| + |minus|
  }

  /** The installed routes are a full rendering of what the push read. */
  ghost predicate FullyShown(routes: seq<Route>, input: PushInput) {
    exists over, keys :: IsKeyOrder(input.entries, keys) && Elements(over) == OverCapTenants(input.inp, input.entries)
                         && routes == Rendered(input.inp, input.entries, input.fqdns, over, keys)
  }

  function AllDeleted(routes: seq<Route>, ids: seq<string>): seq<Route>
    decreases |ids|
  {
    if ids == [] then routes else AllDeleted(Deleted(routes, ids[0]), ids[1..])
  }

  function AllPut(routes: seq<Route>, puts: seq<Route>, reply: nat -> Reply, first: nat): seq<Route>
    decreases |puts|
  {
    if puts == [] then routes else AllPut(Upserted(routes, puts[0], reply(first).creates), puts[1..], reply, first + 1)
  }

  lemma PutStep(routes: seq<Route>, puts: seq<Route>, i: nat, reply: nat -> Reply, first: nat)
    requires i < |puts|
    ensures AllPut(routes, puts[i..], reply, first + i) ==
            AllPut(Upserted(routes, puts[i], reply(first + i).creates), puts[i + 1..], reply, first + i + 1)
  {
    assert puts[i..][0] == puts[i] && puts[i..][1..] == puts[i + 1..];
  }

  function AfterDeletes(routes: seq<Route>, removed: seq<string>, fqdnRemoved: seq<string>): seq<Route> {
    AllDeleted(AllDeleted(routes, removed), fqdnRemoved)
  }

  function AfterPuts(routes: seq<Route>, input: PushInput, changed: seq<RouteEntry>, fqdnAdded: seq<string>,
      first: nat): seq<Route> {
    var apps := AllPut(routes, AppPuts(input.inp, changed), input.reply, first);
    AllPut(apps, DomainPuts(input, fqdnAdded), input.reply, first + |changed|)
  }

  /** The installed routes after an incremental push that went through. */
  function RoutesPatched(
    routes: seq<Route>, input: PushInput, removed: seq<string>, changed: seq<RouteEntry>, fqdnAdded: seq<string>,
        fqdnRemoved: seq<string>)
    : seq<Route>
  {
    AfterPuts(AfterDeletes(routes, removed, fqdnRemoved), input, changed, fqdnAdded, |removed| + |fqdnRemoved|)
  }

  // ---------------------------------------------------------------- what a patch shows, id by id

  lemma {:induction false} DeletesTake(routes: seq<Route>, ids: seq<string>, id: string)
    ensures WithId(AllDeleted(routes, ids), id) == if id in ids then [] else WithId(routes, id)
    decreases |ids|
  {
    if ids != [] {
      DeleteTakesItsId(routes, ids[0], id);
      DeletesTake(Deleted(routes, ids[0]), ids[1..], id);
    }
  }

  /** Every route has an id, and none has this one. */
  ghost predicate Avoids(puts: seq<Route>, id: string) { forall p :: p in puts ==> p.id.Some? && p.id != Some(id) }

  lemma {:induction false} PutsKeepOthers(routes: seq<Route>, puts: seq<Route>, reply: nat -> Reply, first: nat,
      id: string)
    requires Avoids(puts, id)
    ensures WithId(AllPut(routes, puts, reply, first), id) == WithId(routes, id)
    decreases |puts|
  {
    if puts != [] {
      assert puts[0] in puts;
      UpsertShowsRoute(routes, puts[0], reply(first).creates, id);
      PutsKeepOthers(Upserted(routes, puts[0], reply(first).creates), puts[1..], reply, first + 1, id);
    }
  }

  /** The routes put for names other than `id`. */
  lemma DomainPutsAvoid(input: PushInput, names: seq<string>, id: string)
    requires id !in names
    ensures Avoids(DomainPuts(input, names), id)
  {
    DomainIds(input, names);
    forall p | p in DomainPuts(input, names) ensures p.id.Some? && p.id != Some(id) { assert p.id.value in names; }
  }

  /** The routes put for rows whose host is not `id`. */
  lemma AppPutsAvoid(inp: Inputs, es: seq<RouteEntry>, id: string)
    requires NoHost(es, id)
    ensures Avoids(AppPuts(inp, es), id)
  {
    var puts := AppPuts(inp, es);
    forall p | p in puts ensures p.id.Some? && p.id != Some(id) {
      var i :| 0 <= i < |puts| && puts[i] == p;
      AppPutAt(inp, es, i);
      assert es[i] in es;
    }
  }

  lemma AppPutAt(inp: Inputs, es: seq<RouteEntry>, i: nat)
    requires i < |es|
    ensures |AppPuts(inp, es)| == |es| && AppPuts(inp, es)[i] == SingleRoute(inp, es[i])
    ensures AppPuts(inp, es)[i].id == Some(HostOf(es[i]))
  {
  }

  /** The proxy creates unknown ids. */
  ghost predicate Creates(reply: nat -> Reply) { forall n :: reply(n).creates }

  /** Where the proxy creates unknown ids, the last route put under an id is the first one shown under it. */
  lemma {:induction false} PutShows(routes: seq<Route>, puts: seq<Route>, reply: nat -> Reply, first: nat, i: nat,
      id: string)
    requires i < |puts| && puts[i].id == Some(id) && Creates(reply) && forall p :: p in puts ==>
        p.id.Some?
    requires forall j :: i < j < |puts| ==> puts[j].id != Some(id)
    ensures var shown := WithId(AllPut(routes, puts, reply, first), id); shown != [] && shown[0] == puts[i]
    decreases |puts|
  {
    var next, rest := Upserted(routes, puts[0], reply(first).creates), puts[1..];
    assert forall p :: p in rest ==> p in puts;
    if i > 0 {
      PutShows(next, rest, reply, first + 1, i - 1, id);
    } else {
      UpsertShowsRoute(routes, puts[0], reply(first).creates, id);
      forall p | p in rest ensures p.id != Some(id) {
        var j :| 0 <= j < |rest| && rest[j] == p;
        assert puts[j + 1] == p;
      }
      PutsKeepOthers(next, rest, reply, first + 1, id);
    }
  }

  /** A patch shows, under the host of an added or changed row, the route of the last such row. */
  lemma PatchShowsApp(routes: seq<Route>, input: PushInput, removed: seq<string>, changed: seq<RouteEntry>,
      plus: seq<string>, minus: seq<string>, i: nat)
    requires i < |changed| && Creates(input.reply)
    requires IsLastOfHost(changed, i)
    requires HostOf(changed[i]) !in plus
    ensures var shown := WithId(RoutesPatched(routes, input, removed, changed, plus, minus), HostOf(changed[i]));
            shown != [] && shown[0] == SingleRoute(input.inp, changed[i])
  {
    PutsShowApp(AfterDeletes(routes, removed, minus), input, changed, plus, |removed| + |minus|, i);
  }

  lemma PutsShowApp(routes: seq<Route>, input: PushInput, changed: seq<RouteEntry>, plus: seq<string>, first: nat,
      i: nat)
    requires i < |changed| && Creates(input.reply) && HostOf(changed[i]) !in plus && IsLastOfHost(changed, i)
    ensures var shown := WithId(AfterPuts(routes, input, changed, plus, first), HostOf(changed[i]));
            shown != [] && shown[0] == SingleRoute(input.inp, changed[i])
  {
    var id, apps := HostOf(changed[i]), AllPut(routes, AppPuts(input.inp, changed), input.reply, first);
    AppPutShows(routes, input, changed, first, i);
    DomainPutsAvoid(input, plus, id);
    PutsKeepOthers(apps, DomainPuts(input, plus), input.reply, first + |changed|, id);
  }

  /** No later row has the same host. */
  ghost predicate IsLastOfHost(changed: seq<RouteEntry>, i: nat)
    requires i < |changed|
  {
    forall j :: i < j < |changed| ==> HostOf(changed[j]) != HostOf(changed[i])
  }

  lemma AppPutShows(routes: seq<Route>, input: PushInput, changed: seq<RouteEntry>, first: nat, i: nat)
    requires i < |changed| && Creates(input.reply)
    requires IsLastOfHost(changed, i)
    ensures var shown := WithId(AllPut(routes, AppPuts(input.inp, changed), input.reply, first), HostOf(changed[i]));
            shown != [] && shown[0] == SingleRoute(input.inp, changed[i])
  {
    var puts, id := AppPuts(input.inp, changed), HostOf(changed[i]);
    AppPutsHaveOtherIds(input.inp, changed);
    AppPutAt(input.inp, changed, i);
    forall j | i < j < |puts| ensures puts[j].id != Some(id) { AppPutAt(input.inp, changed, j); }
    PutShows(routes, puts, input.reply, first, i, id);
  }

  /** No row has this host. */
  ghost predicate NoHost(es: seq<RouteEntry>, host: string) { forall e :: e in es ==> HostOf(e) != host }

  function HostOf(e: RouteEntry): string { IngressHost(e.tenant, e.app) }

  /** A patch shows, under a newly bound name whose app has rows, the route of that binding. */
  lemma PatchShowsDomain(routes: seq<Route>, input: PushInput, removed: seq<string>, changed: seq<RouteEntry>,
      plus: seq<string>, minus: seq<string>, i: nat)
    requires i < |plus| && NoDuplicates(plus) && DomainRoute(input, plus[i]).Some? && Creates(input.reply)
    ensures var shown := WithId(RoutesPatched(routes, input, removed, changed, plus, minus), plus[i]);
            shown != [] && Some(shown[0]) == DomainRoute(input, plus[i])
  {
    var k := DomainPutAt(input, plus, i);
    DomainIds(input, plus);
    PatchShowsPut(routes, input, removed, changed, plus, minus, k, plus[i]);
  }

  /** The route at position `k` carries the id, no later one does, and all have ids. */
  ghost predicate IsLastPut(puts: seq<Route>, k: nat, id: string) {
    && k < |puts| && puts[k].id == Some(id) && (forall p :: p in puts ==> p.id.Some?)
    && forall j :: k < j < |puts| ==> puts[j].id != Some(id)
  }

  lemma PatchShowsPut(routes: seq<Route>, input: PushInput, removed: seq<string>, changed: seq<RouteEntry>,
      plus: seq<string>, minus: seq<string>, k: nat, id: string)
    requires Creates(input.reply) && IsLastPut(DomainPuts(input, plus), k, id)
    ensures var shown := WithId(RoutesPatched(routes, input, removed, changed, plus, minus), id);
            shown != [] && shown[0] == DomainPuts(input, plus)[k]
  {
    var n := |removed| + |minus|;
    var apps := AllPut(AfterDeletes(routes, removed, minus), AppPuts(input.inp, changed), input.reply, n);
    PutShows(apps, DomainPuts(input, plus), input.reply, n + |changed|, k, id);
  }

  lemma {:induction false} DomainIds(input: PushInput, names: seq<string>)
    ensures forall p :: p in DomainPuts(input, names) ==> p.id.Some? && p.id.value in names
    decreases |names|
  {
    if names != [] { DomainIds(input, names[1..]); }
  }

  lemma {:induction false} DomainPutAt(input: PushInput, names: seq<string>, i: nat) returns (k: nat)
    requires i < |names| && NoDuplicates(names) && DomainRoute(input, names[i]).Some?
    ensures k < |DomainPuts(input, names)| && Some(DomainPuts(input, names)[k]) == DomainRoute(input, names[i])
    ensures forall j :: k < j < |DomainPuts(input, names)| ==> DomainPuts(input, names)[j].id != Some(names[i])
    decreases |names|
  {
    var rest := DomainPuts(input, names[1..]);
    var head := |DomainPuts(input, names)| - |rest|;
    if i > 0 {
      k := DomainPutAt(input, names[1..], i - 1);
      k := k + head;
    } else {
      k := 0;
      DomainIds(input, names[1..]);
      forall j | 0 <= j < |rest| ensures rest[j].id != Some(names[0]) { assert rest[j] in rest; }
    }
  }

  /** A patch leaves everything else alone: an id that is not deleted, no host of a row that was added or changed, and
      no newly bound name shows what it showed before, and one that is deleted and not put again shows nothing. */
  lemma PatchTouchesOnly(routes: seq<Route>, input: PushInput, removed: seq<string>, changed: seq<RouteEntry>,
      plus: seq<string>, minus: seq<string>, id: string)
    requires id !in plus && NoHost(changed, id)
    ensures WithId(RoutesPatched(routes, input, removed, changed, plus, minus), id) ==
            if id in removed || id in minus then [] else WithId(routes, id)
  {
    DeletesShow(routes, removed, minus, id);
    PutsLeave(AfterDeletes(routes, removed, minus), input, changed, plus, |removed| + |minus|, id);
  }

  lemma DeletesShow(routes: seq<Route>, removed: seq<string>, minus: seq<string>, id: string)
    ensures WithId(AfterDeletes(routes, removed, minus), id) == if id in removed || id in minus
        then [] else WithId(routes, id)
  {
    DeletesTake(routes, removed, id);
    DeletesTake(AllDeleted(routes, removed), minus, id);
  }

  lemma PutsLeave(routes: seq<Route>, input: PushInput, changed: seq<RouteEntry>, plus: seq<string>, first: nat,
      id: string)
    requires id !in plus && NoHost(changed, id)
    ensures WithId(AfterPuts(routes, input, changed, plus, first), id) == WithId(routes, id)
  {
    AppPutsAvoid(input.inp, changed, id);
    DomainPutsAvoid(input, plus, id);
    PutsOf(routes, AppPuts(input.inp, changed), DomainPuts(input, plus), input.reply, first, first + |changed|, id);
  }

  lemma PutsOf(routes: seq<Route>, a: seq<Route>, b: seq<Route>, reply: nat -> Reply, m: nat, n: nat, id: string)
    requires Avoids(a, id) && Avoids(b, id)
    ensures WithId(AllPut(AllPut(routes, a, reply, m), b, reply, n), id) == WithId(routes, id)
  {
    PutsKeepOthers(routes, a, reply, m, id);
    PutsKeepOthers(AllPut(routes, a, reply, m), b, reply, n, id);
  }

  function AppPuts(inp: Inputs, es: seq<RouteEntry>): seq<Route> {
    seq(|es|, i requires 0 <= i < |es| => SingleRoute(inp, es[i]))
  }

  lemma AppPutsHaveOtherIds(inp: Inputs, es: seq<RouteEntry>)
    ensures OtherIds(AppPuts(inp, es))
  {
    forall r | r in AppPuts(inp, es) ensures r.id.Some? && r.id.value != CROSS_REPLICA_ID {
      var i :| 0 <= i < |es| && r == SingleRoute(inp, es[i]);
      HostIsNotCross(es[i].tenant, es[i].app);
    }
  }

  /** The routes of newly bound names whose app has rows. */
  function DomainPuts(input: PushInput, names: seq<string>): seq<Route> {
    if names == [] then [] else
    var route := DomainRoute(input, names[0]);
    (if route == None then [] else [route.value]) + DomainPuts(input, names[1..])
  }

  /** The route for a newly bound name, if its app has rows. */
  function DomainRoute(input: PushInput, name: string): (r: Option<Route>)
    ensures r.Some? ==> r.value.id == Some(name)
  {
    var b := BindingOf(input.fqdns, name);
    if b == None then None else SingleFqdnRoute(input.inp, input.entries, b.value)
  }

  lemma {:induction false} DomainPutsHaveOtherIds(input: PushInput, names: seq<string>)
    requires AllDotted(names)
    ensures OtherIds(DomainPuts(input, names))
  {
    if names != [] {
      assert names[0] in names && forall f :: f in names[1..] ==> f in names;
      NotCross(names[0]);
      DomainPutsHaveOtherIds(input, names[1..]);
    }
  }

  /** Route ids have a ':' and domain names a '.', so no patch touches the cross-replica route. */
  lemma DiffIdsAreMarked(prev: PreviousState, input: PushInput, added: seq<RouteEntry>, removed: seq<string>,
      changed: seq<RouteEntry>)
    requires IsDiff(ById(prev.entries), ById(input.entries), added, removed, changed)
    requires Dotted(prev.fqdns) && Dotted(input.fqdns)
    ensures NoneIsCross(removed)
    ensures var (plus, minus) := DiffFqdns(prev.fqdns, input.fqdns); AllDotted(plus) && NoneIsCross(minus)
  {
    forall id | id in removed ensures id != CROSS_REPLICA_ID {
      var e := ById(prev.entries)[id];
      assert RouteId(e)[|e.tenant|] == ':';
      NotCross(id);
    }
    var (plus, minus) := DiffFqdns(prev.fqdns, input.fqdns);
    assert forall f :: f in plus ==> f in Elements(plus);
    forall f | f in minus ensures f != CROSS_REPLICA_ID {
      assert f in Elements(minus);
      NotCross(f);
    }
  }

  /** Deletes name a row's route id, but app routes are installed under their host: a delete of a patch leaves the
      app routes alone exactly when the id is no app's host. */
  lemma DeleteSparesAppsIff(inp: Inputs, entries: seq<RouteEntry>, keys: seq<(string, string)>, gone: RouteEntry)
    requires Elements(keys) <= KeysOf(entries)
    ensures Deleted(AppRoutes(inp, entries, keys), RouteId(gone)) == AppRoutes(inp, entries, keys) <==>
            forall k :: k in keys ==> IngressHost(k.0, k.1) != RouteId(gone)
  {
    var apps, id := AppRoutes(inp, entries, keys), RouteId(gone);
    forall i | 0 <= i < |apps| ensures apps[i].id == Some(IngressHost(keys[i].0, keys[i].1)) {
      assert keys[i] in Elements(keys);
    }
    if forall k :: k in keys ==> IngressHost(k.0, k.1) != id {
      forall r | r in apps ensures r.id != Some(id) {
        var i :| 0 <= i < |apps| && apps[i] == r;
        assert keys[i] in keys;
      }
      DeleteMisses(apps, id);
    } else {
      var k :| k in keys && IngressHost(k.0, k.1) == id;
      var i :| 0 <= i < |keys| && keys[i] == k;
      DeleteHits(apps, id, i);
    }
  }

  /** In particular no delete removes an app's route where names have no ':'. */
  lemma PatchesDoNotRemoveApps(inp: Inputs, entries: seq<RouteEntry>, keys: seq<(string, string)>, gone: RouteEntry)
    requires Elements(keys) <= KeysOf(entries) && forall k :: k in keys ==> ':' !in k.0 && ':' !in k.1
    ensures Deleted(AppRoutes(inp, entries, keys), RouteId(gone)) == AppRoutes(inp, entries, keys)
  {
    forall k | k in keys ensures IngressHost(k.0, k.1) != RouteId(gone) {
      assert ':' !in SUFFIX && ':' !in IngressHost(k.0, k.1);
      assert RouteId(gone)[|gone.tenant|] == ':';
    }
    DeleteSparesAppsIff(inp, entries, keys, gone);
  }

  lemma {:induction false} DeleteHits(routes: seq<Route>, id: string, i: nat)
    requires i < |routes| && routes[i].id == Some(id)
    ensures |Deleted(routes, id)| < |routes|
    decreases |routes|
  {
    if i > 0 { DeleteHits(routes[1..], id, i - 1); } else { DeletedIsNoLonger(routes[1..], id); }
  }

  lemma {:induction false} DeletedIsNoLonger(routes: seq<Route>, id: string)
    ensures |Deleted(routes, id)| <= |routes|
    decreases |routes|
  {
    if routes != [] { DeletedIsNoLonger(routes[1..], id); }
  }

  lemma {:induction false} DeleteMisses(routes: seq<Route>, id: string)
    requires forall r :: r in routes ==> r.id != Some(id)
    ensures Deleted(routes, id) == routes
    decreases |routes|
  {
    if routes != [] { DeleteMisses(routes[1..], id); }
  }

  /** When the quota state changes between two pushes, the tree pushed first still shows the second state
      exactly when no tenant with a live row crossed its quota. */
  lemma TreeSurvivesQuotaChangeIff(t: L4.Table, es: seq<L4.Entry>, before: set<string>, now: set<string>)
    requires L4.IsSnapshot(t, es) && forall k, l :: k in t && l in t && t[k].port == t[l].port ==> k == l
    ensures RenderL4(es, before) == RenderL4(es, now) <==>
        forall k :: k in t ==> (t[k].key.tenant in before <==> t[k].key.tenant in now)
  {
    if RenderL4(es, before) == RenderL4(es, now) {
      L4TreeIsExact(t, es, before);
      L4TreeIsExact(t, es, now);
      forall k | k in t ensures t[k].key.tenant in before <==> t[k].key.tenant in now {
        assert ServerOf(t[k], before) == ServerOf(t[k], now);
      }
    } else {
      var sorted := Sort(es, PortLeq);
      SortPermutes(es, PortLeq);
      PermutationMembers(sorted, es);
      var e := DifferentServer(sorted, before, now);
      assert e in Elements(es) && t[e.key] == e;
    }
  }

  lemma {:induction false} DifferentServer(es: seq<L4.Entry>, before: set<string>, now: set<string>)
    returns (e: L4.Entry)
    requires Servers(es, before) != Servers(es, now)
    ensures e in Elements(es) && ServerOf(e, before) != ServerOf(e, now)
    decreases |es|
  {
    var n := |es| - 1;
    e := es[n];
    if ServerOf(e, before) == ServerOf(e, now) {
      e := DifferentServer(es[..n], before, now);
    }
  }

  /** A crossing changes the tree but not the rows, so by itself it makes no full load due: whatever the rows, a push
      with few other changes leaves the tree as it was before the crossing. */
  lemma QuotaChangeIsNotNoticed(t: L4.Table, prev: PreviousState, before: set<string>, input: PushInput, changes: nat,
      k: L4.AppKey)
    requires L4.IsSnapshot(t, prev.l4) && forall k, l :: k in t && l in t && t[k].port == t[l].port ==> k == l
    requires prev.l4 == input.l4 && prev.cap == input.capRead
        && changes * 5 <= Max(Max(|input.entries|, |prev.entries|), 1)
    requires k in t && (t[k].key.tenant in before <==> t[k].key.tenant !in input.inp.overCap)
    ensures !ReloadDue(prev, input, changes) && RenderL4(prev.l4, before) != RenderL4(input.l4, input.inp.overCap)
  {
    TreeSurvivesQuotaChangeIff(t, prev.l4, before, input.inp.overCap);
  }

  /** The recorded and the rendered cap are read at two instants. They describe the same route exactly when
      they are equal, or when the route is switched off. */
  lemma TwoReadingsAgreeIff(cfg: Config, recorded: Option<nat>, rendered: Option<nat>)
    ensures CrossFor(cfg, recorded) == CrossFor(cfg, rendered) <==>
            recorded == rendered || !cfg.aggregation || cfg.globalRps == 0
  {
  }
}
