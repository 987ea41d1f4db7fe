/** What a heartbeat message does to the raw-TCP table and when it asks for a refresh of the proxy
    (edge-ingress/src/heartbeats.rs, `apply_heartbeat`). */
module HeartbeatTcp {
  import opened Common
  import opened Text
  import opened PortPool
  import opened Heartbeat
  import L4 = L4Table

  /** No port of the pool is free: every one is held or still cooling. */
  ghost predicate Exhausted(pool: Pool, now: nat) {
    forall p :: pool.InRange(p) ==> p in pool.taken || StillCools(pool.cooling, p, now)
  }

  /** A port of the pool that is free now. */
  ghost predicate IsFree(pool: Pool, p: u16, now: nat) {
    pool.InRange(p) && p !in pool.taken && !StillCools(pool.cooling, p, now)
  }

  /** A pool after acquisitions at time `now`: same range, same ports cooling, at least the same ports held. */
  ghost predicate Grown(before: Pool, after: Pool, now: nat) {
    && after.start == before.start && after.end == before.end && before.taken <= after.taken
    && forall p :: StillCools(after.cooling, p, now) <==> StillCools(before.cooling, p, now)
  }

  /** The row an app has in the table. */
  function RowOf(t: L4.Table, key: L4.AppKey): Option<L4.Entry> { if key in t then Some(t[key]) else None }

  /** `p` is the port a TCP app gets: the one it has on this worker, else the cached one, else a free one of the pool
      that is held afterwards. */
  ghost predicate GetsPort(cache: Cache, pool: Pool, after: Pool, row: Option<L4.Entry>, worker: string, key: L4.AppKey,
      now: nat, p: u16)
  {
    if row.Some? && row.value.worker == worker then p == row.value.port
    else if key in cache then p == cache[key]
    else IsFree(pool, p, now) && p in after.taken
  }

  /** What becomes of a TCP app's row. With a port the row is exactly what was reported, or gone if the app is not
      routable; without one, which takes an exhausted pool and neither a row on this worker nor a cached port, the
      row stays as it was. */
  ghost predicate Settled(cache: Cache, pool: Pool, after: Pool, before: Option<L4.Entry>, row: Option<L4.Entry>,
      worker: string, key: L4.AppKey, app: App, now: nat)
  {
    || (exists p :: GetsPort(cache, pool, after, before, worker, key, now, p) &&
          row == if app.status == "running" || app.status == "draining"
                 then Some(L4.Entry(key, p, worker, app.port, now)) else None)
    || ((before.Some? ==> before.value.worker != worker) && key !in cache && Exhausted(after, now) && row == before)
  }

  // ---------------------------------------------------------------- one app

  lemma OneAppGrows(cache: Cache, pool: Pool, table: L4.Table, worker: string, key: string, app: App, now: nat)
    requires pool.Ranged()
    ensures Grown(pool, L4One(cache, pool, table, worker, key, app, now).0, now)
  {
    AcquireIsCompleteCyclicSearch(pool, now);
    forall p ensures StillCools(Reap(pool.cooling, now), p, now) <==> StillCools(pool.cooling, p, now) {
    }
  }

  /** The effect of one TCP app on its own row and on all others. */
  lemma OneApp(cache: Cache, pool: Pool, table: L4.Table, worker: string, key: string, app: App, now: nat)
    requires pool.Ranged() && IsTcp(app)
    ensures var (after, t) := L4One(cache, pool, table, worker, key, app, now);
            var own := L4.AppKey(app.tenant, SplitOnce(key, ':').0);
            && Settled(cache, pool, after, RowOf(table, own), RowOf(t, own), worker, own, app, now)
            && forall k :: k != own ==> RowOf(t, k) == RowOf(table, k)
  {
    AcquireIsCompleteCyclicSearch(pool, now);
    var (after, t) := L4One(cache, pool, table, worker, key, app, now);
    var own := L4.AppKey(app.tenant, SplitOnce(key, ':').0);
    var row := RowOf(table, own);
    if row.Some? && row.value.worker == worker {
      assert GetsPort(cache, pool, after, row, worker, own, now, row.value.port);
    } else if own in cache {
      assert GetsPort(cache, pool, after, row, worker, own, now, cache[own]);
    } else if Acquired(pool, now).1.Some? {
      var p := Acquired(pool, now).1.value;
      assert GetsPort(cache, pool, after, row, worker, own, now, p);
    } else {
      OneAppGrows(cache, pool, table, worker, key, app, now);
    }
  }

  // ---------------------------------------------------------------- whole messages

  lemma {:induction false} MessageGrows(cache: Cache, pool: Pool, table: L4.Table, worker: string, apps: Apps,
      order: seq<string>, now: nat)
    requires pool.Ranged() && Elements(order) <= apps.Keys
    ensures Grown(pool, L4After(cache, pool, table, worker, apps, order, now).0, now)
    decreases |order|
  {
    if order != [] {
      var last, before := order[|order| - 1], order[..|order| - 1];
      assert last in Elements(order) && Elements(before) <= Elements(order);
      MessageGrows(cache, pool, table, worker, apps, before, now);
      var (p, t) := L4After(cache, pool, table, worker, apps, before, now);
      OneAppGrows(cache, p, t, worker, last, apps[last], now);
    }
  }

  /** The app under `l` is a TCP app with this tenant and name. */
  ghost predicate IsAppOf(apps: Apps, l: string, key: L4.AppKey) {
    l in apps && IsTcp(apps[l]) && apps[l].tenant == key.tenant && SplitOnce(l, ':').0 == key.app
  }

  /** The row of a key that is no TCP app's tenant and name is unchanged. */
  lemma {:induction false} OtherRowsStay(cache: Cache, pool: Pool, table: L4.Table, worker: string, apps: Apps,
      order: seq<string>, now: nat, key: L4.AppKey)
    requires pool.Ranged() && Elements(order) <= apps.Keys && forall l :: l in order ==> !IsAppOf(apps, l, key)
    ensures RowOf(L4After(cache, pool, table, worker, apps, order, now).1, key) == RowOf(table, key)
    decreases |order|
  {
    if order != [] {
      var last, before := order[|order| - 1], order[..|order| - 1];
      assert last in Elements(order) && Elements(before) <= Elements(order);
      assert last in order && forall l :: l in before ==> l in order;
      OtherRowsStay(cache, pool, table, worker, apps, before, now, key);
      var (p, t) := L4After(cache, pool, table, worker, apps, before, now);
      if IsTcp(apps[last]) { OneApp(cache, p, t, worker, last, apps[last], now); }
    }
  }

  /** Judged by the pools at the start and at the end of the message the outcome of one app reads the same. */
  lemma SettledWithin(cache: Cache, first: Pool, pool: Pool, after: Pool, last: Pool, before: Option<L4.Entry>,
      row: Option<L4.Entry>, worker: string, key: L4.AppKey, app: App, now: nat)
    requires Grown(first, pool, now) && Grown(after, last, now) && pool.start == after.start && pool.end == after.end
    requires Settled(cache, pool, after, before, row, worker, key, app, now)
    ensures Settled(cache, first, last, before, row, worker, key, app, now)
  {
    if p :| GetsPort(cache, pool, after, before, worker, key, now, p) &&
            row == if app.status == "running" || app.status == "draining"
                   then Some(L4.Entry(key, p, worker, app.port, now)) else None {
      assert GetsPort(cache, first, last, before, worker, key, now, p);
    }
  }

  /** A TCP app's row after the message, for every order, where no other TCP app of the message has its tenant and
      name: filed under tenant and name, exactly what was reported, on the port it had on this worker, else the
      cached one, else one that was free. Every row that is no TCP app's of the message is unchanged. */
  lemma HeartbeatSetsTcpRoutes(cache: Cache, pool: Pool, table: L4.Table, worker: string, apps: Apps,
      order: seq<string>,
      now: nat, k: string)
    requires pool.Ranged() && IsOrder(apps, order) && k in apps && IsTcp(apps[k])
    requires forall l :: l != k ==> !IsAppOf(apps, l, L4.AppKey(apps[k].tenant, SplitOnce(k, ':').0))
    ensures var (last, t) := L4After(cache, pool, table, worker, apps, order, now);
            var own := L4.AppKey(apps[k].tenant, SplitOnce(k, ':').0);
            && Settled(cache, pool, last, RowOf(table, own), RowOf(t, own), worker, own, apps[k], now)
            && forall key :: (forall l :: !IsAppOf(apps, l, key)) ==> RowOf(t, key) == RowOf(table, key)
  {
    assert k in order by { assert k in Elements(order); }
    OneOfOrder(cache, pool, table, worker, apps, order, now, k);
    forall key | forall l :: !IsAppOf(apps, l, key)
      ensures RowOf(L4After(cache, pool, table, worker, apps, order, now).1, key) == RowOf(table, key)
    {
      OtherRowsStay(cache, pool, table, worker, apps, order, now, key);
    }
  }

  lemma {:induction false} OneOfOrder(cache: Cache, pool: Pool, table: L4.Table, worker: string, apps: Apps,
      order: seq<string>, now: nat, k: string)
    requires pool.Ranged() && Elements(order) <= apps.Keys && NoDuplicates(order) && k in order && IsTcp(apps[k])
    requires forall l :: l != k ==> !IsAppOf(apps, l, L4.AppKey(apps[k].tenant, SplitOnce(k, ':').0))
    ensures var (last, t) := L4After(cache, pool, table, worker, apps, order, now);
            var own := L4.AppKey(apps[k].tenant, SplitOnce(k, ':').0);
            Settled(cache, pool, last, RowOf(table, own), RowOf(t, own), worker, own, apps[k], now)
    decreases |order|
  {
    var n := |order| - 1;
    var last, before := order[n], order[..n];
    var own := L4.AppKey(apps[k].tenant, SplitOnce(k, ':').0);
    assert last in Elements(order) && Elements(before) <= Elements(order);
    MessageGrows(cache, pool, table, worker, apps, before, now);
    var (p, t) := L4After(cache, pool, table, worker, apps, before, now);
    var (q, u) := L4One(cache, p, t, worker, last, apps[last], now);
    OneAppGrows(cache, p, t, worker, last, apps[last], now);
    if last == k {
      assert k !in before;
      OtherRowsStay(cache, pool, table, worker, apps, before, now, own);
      OneApp(cache, p, t, worker, k, apps[k], now);
      SettledWithin(cache, pool, p, q, q, RowOf(table, own), RowOf(u, own), worker, own, apps[k], now);
    } else {
      OneOfOrder(cache, pool, table, worker, apps, before, now, k);
      assert !IsAppOf(apps, last, own);
      if IsTcp(apps[last]) { OneApp(cache, p, t, worker, last, apps[last], now); }
      SettledWithin(cache, pool, pool, p, q, RowOf(table, own), RowOf(u, own), worker, own, apps[k], now);
    }
  }

  // ---------------------------------------------------------------- the returned flag

  /** A TCP app that finds no port: no row on this worker and nothing cached. */
  ghost predicate HasNothing(cache: Cache, table: L4.Table, worker: string, key: string, app: App) {
    var own := L4.AppKey(app.tenant, SplitOnce(key, ':').0);
    IsTcp(app) && own !in cache && (own in table ==> table[own].worker != worker)
  }

  /** A message asks for a refresh unless all its apps are TCP apps, the pool is exhausted, and none of them has a row
      on this worker or a cached port; then it changes no row. */
  lemma {:induction false} RefreshIff(cache: Cache, pool: Pool, table: L4.Table, worker: string, apps: Apps,
      order: seq<string>, now: nat)
    requires pool.Ranged() && Elements(order) <= apps.Keys
    ensures !AnyRefreshes(cache, pool, table, worker, apps, order, now) <==>
            order == []
                || (Exhausted(pool, now) && forall k :: k in order ==> HasNothing(cache, table, worker, k, apps[k]))
    ensures !AnyRefreshes(cache, pool, table, worker, apps, order, now) ==>
            L4After(cache, pool, table, worker, apps, order, now).1 == table
    decreases |order|
  {
    if order != [] {
      var n := |order| - 1;
      var last, before := order[n], order[..n];
      assert last in Elements(order) && Elements(before) <= Elements(order);
      assert forall k :: k in order <==> k in before || k == last;
      RefreshIff(cache, pool, table, worker, apps, before, now);
      MessageGrows(cache, pool, table, worker, apps, before, now);
      var (p, t) := L4After(cache, pool, table, worker, apps, before, now);
      AcquireIsCompleteCyclicSearch(p, now);
      if before == [] { assert p == pool; }
      assert !AnyRefreshes(cache, pool, table, worker, apps, before, now) ==> t == table;
    }
  }
}
