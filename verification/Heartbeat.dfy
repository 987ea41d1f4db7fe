/** Applying one heartbeat message (edge-ingress/src/heartbeats.rs, `apply_heartbeat`). */
module Heartbeat {
  import opened Common
  import opened Text
  import opened PortPool
  import opened Routing
  import L4 = L4Table
  import Proto = L4Protocol

  datatype App = App(tenant: string, status: string, protocol: string, port: u16, wsPort: Option<u16>)

  /** The port map of a message: `name` or `name:deployment` to what the app reports. */
  type Apps = map<string, App>

  function MainKey(key: string, app: App): RouteKey {
    var (name, deployment) := SplitOnce(key, ':');
    RouteKey(app.tenant, name, deployment)
  }

  function WsKey(key: string, app: App): RouteKey {
    var (name, deployment) := SplitOnce(key, ':');
    RouteKey(app.tenant, name + "-ws", if deployment == None then None else Some(deployment.value + "-ws"))
  }

  predicate IsTcp(app: App) { app.protocol == "tcp" }

  /** The table writes one app of a message causes, in order. */
  function Writes(worker: string, key: string, app: App, now: nat): (ws: seq<Write>) {
    if IsTcp(app) then []
    else [UpsertWrite(MainKey(key, app), 100, worker, app.port, app.status, now)] +
         if app.wsPort == None then []
         else [UpsertWrite(WsKey(key, app), 100, worker, app.wsPort.value, app.status, now)]
  }

  function AppliedAll(t: Routes, ws: seq<Write>): Routes
    decreases |ws|
  {
    if ws == [] then t else AppliedAll(Applied(t, ws[0]), ws[1..])
  }

  /** The HTTP table after the apps named by `order` have been processed in that order. */
  function HttpAfter(t: Routes, worker: string, apps: Apps, order: seq<string>, now: nat): Routes
    requires Elements(order) <= apps.Keys
    decreases |order|
  {
    if order == [] then t else
    var n := |order| - 1;
    assert order[n] in Elements(order) && Elements(order[..n]) <= Elements(order);
    AppliedAll(HttpAfter(t, worker, apps, order[..n], now), Writes(worker, order[n], apps[order[n]], now))
  }

  /** A possible iteration order of the message's hash table. */
  ghost predicate IsOrder(apps: Apps, order: seq<string>) {
    Elements(order) == apps.Keys && NoDuplicates(order)
  }

  // ---------------------------------------------------------------- the order of the apps

  /** The app under `k` causes the write `w`. */
  ghost predicate Causes(worker: string, apps: Apps, now: nat, k: string, w: Write) {
    k in apps && w in Writes(worker, k, apps[k], now)
  }

  /** Two apps never write different things under one key. */
  ghost predicate NoConflict(worker: string, apps: Apps, now: nat) {
    forall k, l, v, w :: Causes(worker, apps, now, k, v) && Causes(worker, apps, now, l, w) && v.key == w.key ==> v == w
  }

  /** Where a websocket key is the main key of another HTTP app, the two report the same: neither is
      routable, or both have the same status and the same port. */
  ghost predicate ClashesAgree(apps: Apps) {
    forall k, l :: k in apps && l in apps && Clash(k, apps[k], l, apps[l]) ==>
      || (!L4.Routable(apps[k].status) && !L4.Routable(apps[l].status))
      || (apps[k].status == apps[l].status && apps[k].wsPort == Some(apps[l].port))
  }

  predicate Clash(k: string, a: App, l: string, b: App) {
    !IsTcp(a) && !IsTcp(b) && a.wsPort.Some? && WsKey(k, a) == MainKey(l, b)
  }

  /** Distinct message keys give distinct main keys and distinct websocket keys. */
  lemma KeysAreInjective(k: string, a: App, l: string, b: App)
    requires k != l
    ensures MainKey(k, a) != MainKey(l, b) && WsKey(k, a) != WsKey(l, b)
  {
    SplitJoin(k, SplitOnce(k, ':'), ':');
    SplitJoin(l, SplitOnce(l, ':'), ':');
    var (n, d) := SplitOnce(k, ':');
    var (m, e) := SplitOnce(l, ':');
    SuffixCancels(n, m);
    if d.Some? && e.Some? { SuffixCancels(d.value, e.value); }
  }

  lemma SuffixCancels(a: string, b: string)
    ensures a + "-ws" == b + "-ws" ==> a == b
  {
    var x, y := a + "-ws", b + "-ws";
    assert x[..|x| - 3] == a && y[..|y| - 3] == b;
  }

  lemma ClashIsAConflict(worker: string, apps: Apps, now: nat, k: string, l: string)
    requires NoConflict(worker, apps, now) && k in apps && l in apps && Clash(k, apps[k], l, apps[l])
    ensures (!L4.Routable(apps[k].status) && !L4.Routable(apps[l].status))
         || (apps[k].status == apps[l].status && apps[k].wsPort == Some(apps[l].port))
  {
    var v := UpsertWrite(WsKey(k, apps[k]), 100, worker, apps[k].wsPort.value, apps[k].status, now);
    var w := UpsertWrite(MainKey(l, apps[l]), 100, worker, apps[l].port, apps[l].status, now);
    assert Causes(worker, apps, now, k, v) && Causes(worker, apps, now, l, w);
  }

  /** The writes of a message conflict exactly when a websocket key clashes with a different report. */
  lemma ConflictsAreClashes(worker: string, apps: Apps, now: nat)
    ensures NoConflict(worker, apps, now) <==> ClashesAgree(apps)
  {
    if NoConflict(worker, apps, now) {
      forall k, l | k in apps && l in apps && Clash(k, apps[k], l, apps[l])
        ensures (!L4.Routable(apps[k].status) && !L4.Routable(apps[l].status))
             || (apps[k].status == apps[l].status && apps[k].wsPort == Some(apps[l].port))
      {
        ClashIsAConflict(worker, apps, now, k, l);
      }
    }
    if ClashesAgree(apps) {
      forall k, l, v, w | Causes(worker, apps, now, k, v) && Causes(worker, apps, now, l, w) && v.key == w.key
        ensures v == w
      {
        AgreeingWrites(worker, apps, now, k, l, v, w);
      }
    }
  }

  lemma AgreeingWrites(worker: string, apps: Apps, now: nat, k: string, l: string, v: Write, w: Write)
    requires ClashesAgree(apps) && Causes(worker, apps, now, k, v) && Causes(worker, apps, now, l, w) && v.key == w.key
    ensures v == w
  {
    if k != l {
      KeysAreInjective(k, apps[k], l, apps[l]);
      assert Clash(k, apps[k], l, apps[l]) || Clash(l, apps[l], k, apps[k]);
    }
  }

  lemma LookupAfterWrites(t: Routes, worker: string, key: string, app: App, now: nat, r: RouteKey)
    ensures var ws := Writes(worker, key, app, now);
            && (forall w :: w in ws && w.key == r ==> Lookup(AppliedAll(t, ws), r) == w.row)
            && ((forall w :: w in ws ==> w.key != r) ==> Lookup(AppliedAll(t, ws), r) == Lookup(t, r))
  {
    var ws := Writes(worker, key, app, now);
    if |ws| == 1 {
      assert AppliedAll(t, ws) == Applied(t, ws[0]) by { assert ws[1..] == []; }
    } else if |ws| == 2 {
      assert ws[1..] == [ws[1]] && [ws[1]][1..] == [];
      assert AppliedAll(Applied(t, ws[0]), [ws[1]]) == Applied(Applied(t, ws[0]), ws[1]);
    }
  }

  /** The key `r` is written by some app of `order`. */
  ghost predicate Touches(worker: string, apps: Apps, order: seq<string>, now: nat, r: RouteKey) {
    exists k, w :: k in order && Causes(worker, apps, now, k, w) && w.key == r
  }

  /** Without conflicts every written key ends as its write says. */
  lemma {:induction false} WrittenKeys(t: Routes, worker: string, apps: Apps, order: seq<string>, now: nat, k: string,
      w: Write)
    requires Elements(order) <= apps.Keys && NoConflict(worker, apps, now)
    requires k in order && Causes(worker, apps, now, k, w)
    ensures Lookup(HttpAfter(t, worker, apps, order, now), w.key) == w.row
    decreases |order|
  {
    var last, before := order[|order| - 1], order[..|order| - 1];
    LookupAfterWrites(HttpAfter(t, worker, apps, before, now), worker, last, apps[last], now, w.key);
    if v :| v in Writes(worker, last, apps[last], now) && v.key == w.key {
      NoConflictAt(worker, apps, now, last, v, k, w);
    } else {
      assert k != last && k in before;
      WrittenKeys(t, worker, apps, before, now, k, w);
    }
  }

  lemma NoConflictAt(worker: string, apps: Apps, now: nat, k: string, v: Write, l: string, w: Write)
    requires NoConflict(worker, apps, now) && v.key == w.key
    requires Causes(worker, apps, now, k, v) && Causes(worker, apps, now, l, w)
    ensures v == w
  {
  }

  /** Every other key is unchanged. */
  lemma {:induction false} UntouchedKeys(t: Routes, worker: string, apps: Apps, order: seq<string>, now: nat,
      r: RouteKey)
    requires Elements(order) <= apps.Keys && !Touches(worker, apps, order, now, r)
    ensures Lookup(HttpAfter(t, worker, apps, order, now), r) == Lookup(t, r)
    decreases |order|
  {
    if order != [] {
      var n := |order| - 1;
      var last, before := order[n], order[..n];
      assert last in Elements(order) && Elements(before) <= Elements(order);
      LookupAfterWrites(HttpAfter(t, worker, apps, before, now), worker, last, apps[last], now, r);
      assert forall v :: v in Writes(worker, last, apps[last], now) ==> Causes(worker, apps, now, last, v);
      UntouchedKeys(t, worker, apps, before, now, r);
    }
  }

  lemma SameLookupsSameTable(t: Routes, u: Routes)
    requires forall r :: Lookup(t, r) == Lookup(u, r)
    ensures t == u
  {
    assert forall r :: r in t <==> Lookup(t, r).Some?;
    assert forall r :: r in u <==> Lookup(u, r).Some?;
    assert forall r :: r in t ==> t[r] == Lookup(t, r).value;
  }

  lemma NoConflictSameTable(t: Routes, worker: string, apps: Apps, order: seq<string>, other: seq<string>, now: nat)
    requires IsOrder(apps, order) && IsOrder(apps, other) && NoConflict(worker, apps, now)
    ensures HttpAfter(t, worker, apps, order, now) == HttpAfter(t, worker, apps, other, now)
  {
    forall r ensures Lookup(HttpAfter(t, worker, apps, order, now), r) ==
        Lookup(HttpAfter(t, worker, apps, other, now), r) {
      assert forall k :: k in order <==> k in Elements(order);
      assert forall k :: k in other <==> k in Elements(other);
      if Touches(worker, apps, order, now, r) {
        var k, w :| k in order && Causes(worker, apps, now, k, w) && w.key == r;
        WrittenKeys(t, worker, apps, order, now, k, w);
        WrittenKeys(t, worker, apps, other, now, k, w);
      } else {
        UntouchedKeys(t, worker, apps, order, now, r);
        UntouchedKeys(t, worker, apps, other, now, r);
      }
    }
    SameLookupsSameTable(HttpAfter(t, worker, apps, order, now), HttpAfter(t, worker, apps, other, now));
  }

  lemma {:induction false} OrderEndingIn(apps: set<string>, k: string) returns (order: seq<string>)
    requires k in apps
    ensures Elements(order) == apps && NoDuplicates(order) && order != [] && order[|order| - 1] == k
    decreases |apps|
  {
    if apps == {k} {
      order := [k];
    } else {
      assert exists l :: l in apps && l != k;
      var l :| l in apps && l != k;
      order := OrderEndingIn(apps - {l}, k);
      assert l !in order by { assert l !in Elements(order); }
      assert Elements([l] + order) == {l} + Elements(order);
      order := [l] + order;
    }
  }

  /** All orders of a message give the same table exactly when its apps' clashing keys agree. */
  lemma OrderIsIrrelevantIff(t: Routes, worker: string, apps: Apps, now: nat)
    ensures (forall order, other :: IsOrder(apps, order) && IsOrder(apps, other) ==>
               HttpAfter(t, worker, apps, order, now) == HttpAfter(t, worker, apps, other, now))
            <==> ClashesAgree(apps)
  {
    ConflictsAreClashes(worker, apps, now);
    if NoConflict(worker, apps, now) {
      forall order, other | IsOrder(apps, order) && IsOrder(apps, other)
        ensures HttpAfter(t, worker, apps, order, now) == HttpAfter(t, worker, apps, other, now)
      {
        NoConflictSameTable(t, worker, apps, order, other, now);
      }
    } else {
      var k, l, v, w :| Causes(worker, apps, now, k, v) && Causes(worker, apps, now, l, w) && v.key == w.key && v != w;
      var order := OrderEndingIn(apps.Keys, k);
      var other := OrderEndingIn(apps.Keys, l);
      LastWriteWins(t, worker, apps, order, now, v);
      LastWriteWins(t, worker, apps, other, now, w);
      assert IsOrder(apps, order) && IsOrder(apps, other);
    }
  }

  lemma LastWriteWins(t: Routes, worker: string, apps: Apps, order: seq<string>, now: nat, w: Write)
    requires IsOrder(apps, order) && order != []
    requires w in Writes(worker, order[|order| - 1], apps[order[|order| - 1]], now)
    ensures Lookup(HttpAfter(t, worker, apps, order, now), w.key) == w.row
  {
    var n := |order| - 1;
    assert Elements(order[..n]) <= Elements(order);
    LookupAfterWrites(HttpAfter(t, worker, apps, order[..n], now), worker, order[n], apps[order[n]], now, w.key);
  }

  /** An HTTP app's rows after the message, for every order, unless a clashing key is reported differently: for its
      own key and for its websocket key exactly what was reported (weight 0 while draining), or none for any other
      status; every key that no app writes is unchanged. */
  lemma HeartbeatSetsRoutes(t: Routes, worker: string, apps: Apps, order: seq<string>, now: nat, k: string)
    requires IsOrder(apps, order) && ClashesAgree(apps) && k in apps && !IsTcp(apps[k])
    ensures var app := apps[k];
            var (name, deployment) := SplitOnce(k, ':');
            var after := HttpAfter(t, worker, apps, order, now);
            && Lookup(after, RouteKey(app.tenant, name, deployment)) ==
                Reported(app, name, deployment, app.port, worker, now)
            && (app.wsPort.Some? ==>
                  var wsDeployment := if deployment == None then None else Some(deployment.value + "-ws");
                  Lookup(after, RouteKey(app.tenant, name + "-ws", wsDeployment)) ==
                  Reported(app, name + "-ws", wsDeployment, app.wsPort.value, worker, now))
            && forall r :: !Touches(worker, apps, order, now, r) ==> Lookup(after, r) == Lookup(t, r)
  {
    ConflictsAreClashes(worker, apps, now);
    var app := apps[k];
    assert k in order by { assert k in Elements(order); }
    var main := UpsertWrite(MainKey(k, app), 100, worker, app.port, app.status, now);
    assert Causes(worker, apps, now, k, main);
    forall r | !Touches(worker, apps, order, now, r)
        ensures Lookup(HttpAfter(t, worker, apps, order, now), r) == Lookup(t, r) {
      UntouchedKeys(t, worker, apps, order, now, r);
    }
    WrittenKeys(t, worker, apps, order, now, k, main);
    if app.wsPort.Some? {
      var ws := UpsertWrite(WsKey(k, app), 100, worker, app.wsPort.value, app.status, now);
      assert Causes(worker, apps, now, k, ws);
      WrittenKeys(t, worker, apps, order, now, k, ws);
    }
  }

  /** The row a report stands for: full weight while running, none of it while draining, no row otherwise. */
  function Reported(app: App, name: string, deployment: Option<string>, port: u16, worker: string,
      now: nat): Option<RouteEntry> {
    if app.status == "running" then Some(RouteEntry(app.tenant, name, deployment, 100, worker, port, None, None, now))
    else if app.status == "draining"
        then Some(RouteEntry(app.tenant, name, deployment, 0, worker, port, None, None, now))
    else None
  }

  /** Two apps, one named like the other's websocket route: the order decides which of them is routed. */
  lemma WsClashDependsOnOrder(t: Routes, now: nat)
    ensures var apps := map["chat" := App("t", "running", "http", 8081, Some(9001)),
        "chat-ws" := App("t", "running", "http", 8082, None)];
            exists order, other :: IsOrder(apps, order) && IsOrder(apps, other) &&
              HttpAfter(t, "w", apps, order, now) != HttpAfter(t, "w", apps, other, now)
  {
    var apps := map["chat" := App("t", "running", "http", 8081, Some(9001)),
        "chat-ws" := App("t", "running", "http", 8082, None)];
    IndexOfIs("chat", ':', 4);
    IndexOfIs("chat-ws", ':', 7);
    assert Clash("chat", apps["chat"], "chat-ws", apps["chat-ws"]);
    OrderIsIrrelevantIff(t, "w", apps, now);
  }

  // ---------------------------------------------------------------- the TCP apps of a message

  /** The control-plane ports that are fresh, by app. */
  type Cache = map<L4.AppKey, u16>

  function CachedPort(cache: Cache, key: L4.AppKey): Option<u16> { if key in cache then Some(cache[key]) else None }

  function L4Key(key: string, app: App): L4.AppKey { L4.AppKey(app.tenant, SplitOnce(key, ':').0) }

  /** Pool and L4 table after one app; HTTP apps leave both alone, and so does an exhausted pool the table. */
  function L4One(cache: Cache, pool: Pool, table: L4.Table, worker: string, key: string, app: App,
      now: nat): (r: (Pool, L4.Table))
    requires pool.Ranged()
    ensures r.0.Ranged()
  {
    if !IsTcp(app) then (pool, table) else
    var (after, port) := Proto.ResolvePort(pool, table, L4Key(key, app), worker, CachedPort(cache, L4Key(key, app)),
        now);
    if port == None then (after, table)
    else (after, L4.Upserted(table, L4Key(key, app), port.value.0, worker, app.port, app.status, now))
  }

  function L4After(cache: Cache, pool: Pool, table: L4.Table, worker: string, apps: Apps, order: seq<string>,
      now: nat): (r: (Pool, L4.Table))
    requires pool.Ranged() && Elements(order) <= apps.Keys
    ensures r.0.Ranged()
    decreases |order|
  {
    if order == [] then (pool, table) else
    var n := |order| - 1;
    assert order[n] in Elements(order) && Elements(order[..n]) <= Elements(order);
    var (p, t) := L4After(cache, pool, table, worker, apps, order[..n], now);
    L4One(cache, p, t, worker, order[n], apps[order[n]], now)
  }

  /** Whether the app makes the caller refresh the proxy: all do but a TCP app left without a port. */
  predicate Refreshes(cache: Cache, pool: Pool, table: L4.Table, worker: string, key: string, app: App, now: nat)
    requires pool.Ranged()
  {
    IsTcp(app) ==>
        Proto.ResolvePort(pool, table, L4Key(key, app), worker, CachedPort(cache, L4Key(key, app)), now).1.Some?
  }

  predicate AnyRefreshes(cache: Cache, pool: Pool, table: L4.Table, worker: string, apps: Apps, order: seq<string>,
      now: nat)
    requires pool.Ranged() && Elements(order) <= apps.Keys
    decreases |order|
  {
    order != [] &&
    var n := |order| - 1;
    assert order[n] in Elements(order) && Elements(order[..n]) <= Elements(order);
    var (p, t) := L4After(cache, pool, table, worker, apps, order[..n], now);
    AnyRefreshes(cache, pool, table, worker, apps, order[..n], now)
        || Refreshes(cache, p, t, worker, order[n], apps[order[n]], now)
  }

  /** One message: a departing worker's routes go, otherwise its apps are applied in some order.
      `cache` holds the fresh control-plane ports; `order` and `snap` name the choices made. */
  method ApplyHeartbeat(
    table: RoutingTable, l4: L4.L4RoutingTable, pool: L4PortPool, cache: Cache,
    workerAddr: Option<string>, apps: Apps, now: nat)
    returns (changed: bool, ghost order: seq<string>, ghost snap: seq<L4.Entry>)
    requires pool.Model().Ranged() && L4.Keyed(l4.byApp)
    modifies table`byApp, l4, pool
    ensures pool.Model().Ranged() && L4.Keyed(l4.byApp)
    ensures workerAddr in {None, Some("")} ==>
              !changed && table.byApp == old(table.byApp) && l4.byApp == old(l4.byApp)
                  && pool.Model() == old(pool.Model())
    ensures workerAddr !in {None, Some("")} && apps == map[] ==>
              && L4.IsSnapshot(old(l4.byApp), snap)
              && table.byApp == old(table.byApp) - WorkerKeys(old(table.byApp), workerAddr.value)
              && l4.byApp == old(l4.byApp) - L4.WorkerKeys(old(l4.byApp), workerAddr.value)
              && pool.Model() == ReleaseAll(old(pool.Model()), Proto.WorkerPorts(snap, workerAddr.value), now)
              && (changed <==> table.byApp != old(table.byApp) || l4.byApp != old(l4.byApp))
    ensures workerAddr !in {None, Some("")} && apps != map[] ==>
              && IsOrder(apps, order)
              && table.byApp == HttpAfter(old(table.byApp), workerAddr.value, apps, order, now)
              && (pool.Model(), l4.byApp) ==
                  L4After(cache, old(pool.Model()), old(l4.byApp), workerAddr.value, apps, order, now)
              && changed == AnyRefreshes(cache, old(pool.Model()), old(l4.byApp), workerAddr.value, apps, order, now)
  {
    order, snap := [], [];
    var worker := if workerAddr == None then "" else workerAddr.value;
    if worker == "" {
      changed := false;
    } else if apps == map[] {
      changed, snap := ApplyDeparture(table, l4, pool, worker, now);
    } else {
      changed, order := ApplyApps(table, l4, pool, cache, worker, apps, now);
    }
  }

  method ApplyDeparture(table: RoutingTable, l4: L4.L4RoutingTable, pool: L4PortPool, worker: string, now: nat)
    returns (changed: bool, ghost snap: seq<L4.Entry>)
    requires pool.Model().Ranged() && L4.Keyed(l4.byApp)
    modifies table`byApp, l4, pool
    ensures pool.Model().Ranged() && L4.Keyed(l4.byApp)
    ensures L4.IsSnapshot(old(l4.byApp), snap)
    ensures table.byApp == old(table.byApp) - WorkerKeys(old(table.byApp), worker)
    ensures l4.byApp == old(l4.byApp) - L4.WorkerKeys(old(l4.byApp), worker)
    ensures pool.Model() == ReleaseAll(old(pool.Model()), Proto.WorkerPorts(snap, worker), now)
    ensures changed <==> table.byApp != old(table.byApp) || l4.byApp != old(l4.byApp)
  {
    var before := l4.Snapshot();
    var removedHttp := table.RemoveWorker(worker);
    var removedL4 := l4.RemoveWorker(worker);
    ReleaseWorkerPorts(pool, before, worker, now);
    snap := before;
    changed := removedHttp != [] || removedL4 != [];
    assert removedHttp != [] ==> removedHttp[0] in Elements(removedHttp);
    assert removedL4 != [] ==> removedL4[0] in Elements(removedL4);
    assert removedHttp == [] ==> table.byApp == old(table.byApp);
    assert removedL4 == [] ==> l4.byApp == old(l4.byApp);
  }

  /** The three specifications of a message, one app further. */
  lemma OneMoreApp(cache: Cache, pool: Pool, table: L4.Table, http: Routes, worker: string, apps: Apps,
      keys: seq<string>, i: nat, now: nat)
    requires pool.Ranged() && i < |keys| && Elements(keys[..i + 1]) <= apps.Keys
    ensures Elements(keys[..i]) <= apps.Keys && keys[i] in apps
    ensures HttpAfter(http, worker, apps, keys[..i + 1], now) ==
            AppliedAll(HttpAfter(http, worker, apps, keys[..i], now), Writes(worker, keys[i], apps[keys[i]], now))
    ensures var (p, t) := L4After(cache, pool, table, worker, apps, keys[..i], now);
            && L4After(cache, pool, table, worker, apps, keys[..i + 1], now) ==
               L4One(cache, p, t, worker, keys[i], apps[keys[i]], now)
            && (AnyRefreshes(cache, pool, table, worker, apps, keys[..i + 1], now) <==>
                AnyRefreshes(cache, pool, table, worker, apps, keys[..i], now)
                || Refreshes(cache, p, t, worker, keys[i], apps[keys[i]], now))
  {
    var longer := keys[..i + 1];
    assert longer[i] == keys[i] && longer[..i] == keys[..i];
    assert keys[i] in Elements(longer) && Elements(keys[..i]) <= Elements(longer);
  }

  method ApplyApps(
    table: RoutingTable, l4: L4.L4RoutingTable, pool: L4PortPool, cache: Cache,
    worker: string, apps: Apps, now: nat)
    returns (changed: bool, ghost order: seq<string>)
    requires pool.Model().Ranged() && L4.Keyed(l4.byApp)
    modifies table`byApp, l4, pool
    ensures pool.Model().Ranged() && L4.Keyed(l4.byApp) && IsOrder(apps, order)
    ensures table.byApp == HttpAfter(old(table.byApp), worker, apps, order, now)
    ensures (pool.Model(), l4.byApp) == L4After(cache, old(pool.Model()), old(l4.byApp), worker, apps, order, now)
    ensures changed == AnyRefreshes(cache, old(pool.Model()), old(l4.byApp), worker, apps, order, now)
  {
    changed := false;
    var keys := ListOf(apps.Keys);
    order := keys;
    for i := 0 to |keys|
      invariant pool.Model().Ranged() && L4.Keyed(l4.byApp)
      invariant Elements(keys[..i]) <= apps.Keys
      invariant table.byApp == HttpAfter(old(table.byApp), worker, apps, keys[..i], now)
      invariant (pool.Model(), l4.byApp) ==
          L4After(cache, old(pool.Model()), old(l4.byApp), worker, apps, keys[..i], now)
      invariant changed == AnyRefreshes(cache, old(pool.Model()), old(l4.byApp), worker, apps, keys[..i], now)
    {
      var key := keys[i];
      assert key in Elements(keys) && Elements(keys[..i + 1]) <= Elements(keys);
      OneMoreApp(cache, old(pool.Model()), old(l4.byApp), old(table.byApp), worker, apps, keys, i, now);
      var touched := ApplyApp(table, l4, pool, cache, worker, key, apps[key], now);
      changed := changed || touched;
    }
    assert keys[..|keys|] == keys;
  }

  method ReleaseWorkerPorts(pool: L4PortPool, snap: seq<L4.Entry>, worker: string, now: nat)
    requires pool.Model().Ranged()
    modifies pool
    ensures pool.Model().Ranged()
    ensures pool.Model() == ReleaseAll(old(pool.Model()), Proto.WorkerPorts(snap, worker), now)
  {
    for i := 0 to |snap|
      invariant pool.Model().Ranged()
      invariant ReleaseAll(old(pool.Model()), Proto.WorkerPorts(snap, worker), now) ==
                ReleaseAll(pool.Model(), Proto.WorkerPorts(snap[i..], worker), now)
    {
      assert snap[i..][0] == snap[i] && snap[i..][1..] == snap[i + 1..];
      ghost var rest := Proto.WorkerPorts(snap[i + 1..], worker);
      assert Proto.WorkerPorts(snap[i..], worker) == (if snap[i].worker == worker then [snap[i].port] else []) + rest;
      assert [] + rest == rest && ([snap[i].port] + rest)[1..] == rest;
      if snap[i].worker == worker {
        pool.Release(snap[i].port, now);
      }
    }
  }

  method ApplyApp(
    table: RoutingTable, l4: L4.L4RoutingTable, pool: L4PortPool, cache: Cache,
    worker: string, key: string, app: App, now: nat)
    returns (changed: bool)
    requires pool.Model().Ranged() && L4.Keyed(l4.byApp)
    modifies table`byApp, l4, pool
    ensures L4.Keyed(l4.byApp)
    ensures table.byApp == AppliedAll(old(table.byApp), Writes(worker, key, app, now))
    ensures (pool.Model(), l4.byApp) == L4One(cache, old(pool.Model()), old(l4.byApp), worker, key, app, now)
    ensures changed == Refreshes(cache, old(pool.Model()), old(l4.byApp), worker, key, app, now)
  {
    var (name, deployment) := SplitOnce(key, ':');
    if app.protocol == "tcp" {
      var l4Key := L4.AppKey(app.tenant, name);
      var existing := l4.Lookup(l4Key);
      var publicPort: u16;
      if existing.Some? && existing.value.worker == worker {
        publicPort := existing.value.port;
      } else if l4Key in cache {
        publicPort := cache[l4Key];
      } else {
        var acquired := pool.Acquire(now);
        if acquired == None {
          return false;
        }
        publicPort := acquired.value;
      }
      l4.Upsert(l4Key, publicPort, worker, app.port, app.status, now);
      changed := true;
    } else {
      table.Upsert(app.tenant, name, deployment, 100, worker, app.port, app.status, now);
      changed := true;
      if app.wsPort.Some? {
        var wsDeployment := if deployment == None then None else Some(deployment.value + "-ws");
        table.Upsert(app.tenant, name + "-ws", wsDeployment, 100, worker, app.wsPort.value, app.status, now);
      }
      ghost var ws := Writes(worker, key, app, now);
      ghost var once := Applied(old(table.byApp), ws[0]);
      if |ws| == 1 {
        assert ws[1..] == [] && AppliedAll(once, []) == once;
      } else {
        assert ws[1..] == [ws[1]] && [ws[1]][1..] == [];
        assert AppliedAll(once, [ws[1]]) == Applied(once, ws[1]);
      }
    }
  }

  // ---------------------------------------------------------------- a message is a run of protocol steps

  /** Cached ports lie outside the pool's range, are distinct, and no other app is live on them. */
  ghost predicate CacheFits(cache: Cache, pool: Pool, table: L4.Table) {
    && (forall k :: k in cache ==> !pool.InRange(cache[k]) && Proto.IsFor(table, k, cache[k]))
    && (forall k, l :: k in cache && l in cache && k != l ==> cache[k] != cache[l])
  }

  lemma AppKeepsCacheFit(cache: Cache, pool: Pool, table: L4.Table, worker: string, key: string, app: App, now: nat)
    requires pool.Ranged() && CacheFits(cache, pool, table)
    ensures var (p, t) := L4One(cache, pool, table, worker, key, app, now); CacheFits(cache, p, t)
  {
    AcquireIsCompleteCyclicSearch(pool, now);
    var (p, t) := L4One(cache, pool, table, worker, key, app, now);
    assert forall q :: p.InRange(q) == pool.InRange(q);
    assert forall k :: k in t && k != L4Key(key, app) ==> k in table && t[k] == table[k];
  }

  /** One TCP app of a message is a resolve and, if a port was found, a commit. */
  lemma AppIsSteps(env: Proto.Env, cache: Cache, s: Proto.State, key: string, app: App) returns (steps: seq<Proto.Step>)
    requires s.pool.Ranged() && s.hb.Open? && IsTcp(app)
    ensures Proto.CanRun(env, s, steps) && (CacheFits(cache, s.pool, s.table) ==> Proto.GuardedRun(env, s, steps))
    ensures var (pool, table) := L4One(cache, s.pool, s.table, s.hb.worker, key, app, s.now);
            Proto.After(env, s, steps) == s.(pool := pool, table := table)
  {
    var step := Proto.Resolve(L4Key(key, app), app.port, app.status, CachedPort(cache, L4Key(key, app)));
    steps := [step];
    Proto.RunExtends(env, s, [], step);
    if Proto.Do(env, s, step).hb.Holding? {
      Proto.RunExtends(env, s, [step], Proto.Commit);
      steps := [step, Proto.Commit];
    }
  }

  /** The steps of one message when no pruner step falls between them. */
  lemma {:induction false} AppsAreSteps(env: Proto.Env, cache: Cache, s: Proto.State, apps: Apps, order: seq<string>)
    returns (steps: seq<Proto.Step>)
    requires s.pool.Ranged() && s.hb.Open? && Elements(order) <= apps.Keys
    ensures Proto.CanRun(env, s, steps)
    ensures var (pool, table) := L4After(cache, s.pool, s.table, s.hb.worker, apps, order, s.now);
            && Proto.After(env, s, steps) == s.(pool := pool, table := table)
            && (CacheFits(cache, s.pool, s.table) ==> Proto.GuardedRun(env, s, steps) && CacheFits(cache, pool, table))
    decreases |order|
  {
    steps := [];
    if order != [] {
      var n := |order| - 1;
      var key := order[n];
      assert key in Elements(order) && Elements(order[..n]) <= Elements(order);
      steps := AppsAreSteps(env, cache, s, apps, order[..n]);
      var t := Proto.After(env, s, steps);
      if CacheFits(cache, t.pool, t.table) {
        AppKeepsCacheFit(cache, t.pool, t.table, s.hb.worker, key, apps[key], s.now);
      }
      if IsTcp(apps[key]) {
        var more := AppIsSteps(env, cache, t, key, apps[key]);
        Proto.RunsConcatenate(env, s, steps, more);
        steps := steps + more;
      }
    }
  }

  /** The effect of a message applied whole is a run of the interleaved protocol. When no pruner step falls inside
      the message, the guards on lookups and upserts hold by themselves; what remains is that the cache fits. */
  lemma MessageIsARun(env: Proto.Env, cache: Cache, s: Proto.State, worker: string, apps: Apps, order: seq<string>)
    returns (steps: seq<Proto.Step>)
    requires s.pool.Ranged() && s.hb.Quiet? && worker != "" && IsOrder(apps, order)
    ensures Proto.CanRun(env, s, steps) && (CacheFits(cache, s.pool, s.table) ==> Proto.GuardedRun(env, s, steps))
    ensures var (pool, table) := L4After(cache, s.pool, s.table, worker, apps, order, s.now);
            Proto.After(env, s, steps) == s.(pool := pool, table := table)
  {
    var begin := Proto.Begin(worker);
    var u := Proto.Do(env, s, begin);
    steps := AppsAreSteps(env, cache, u, apps, order);
    Proto.RunExtends(env, u, steps, Proto.End);
    steps := steps + [Proto.End];
    assert ([begin] + steps)[1..] == steps;
    steps := [begin] + steps;
  }

  /** So is a departure applied whole. */
  lemma DepartureIsARun(env: Proto.Env, s: Proto.State, worker: string, snap: seq<L4.Entry>)
    requires s.pool.Ranged() && s.hb.Quiet? && worker != "" && L4.IsSnapshot(s.table, snap)
    ensures var steps := [Proto.BeginLeave(worker, snap), Proto.FinishLeave];
            && Proto.CanRun(env, s, steps) && Proto.GuardedRun(env, s, steps)
            && Proto.After(env, s, steps) == s.(table := s.table - L4.WorkerKeys(s.table, worker),
                                                pool := ReleaseAll(s.pool, Proto.WorkerPorts(snap, worker), s.now))
  {
    var begin := Proto.BeginLeave(worker, snap);
    Proto.RunExtends(env, s, [], begin);
    assert [] + [begin] == [begin] && [begin] + [Proto.FinishLeave] == [begin, Proto.FinishLeave];
    assert Proto.CanRun(env, s, []) && Proto.After(env, s, []) == s;
    Proto.RunExtends(env, s, [begin], Proto.FinishLeave);
  }
}
