/** One tick of the pruner (edge-ingress/src/heartbeats.rs, the loop body of `spawn_pruner`). */
module Pruner {
  import opened Common
  import opened PortPool
  import opened Routing
  import L4 = L4Table
  import Proto = L4Protocol

  /** Both tables lose their stale rows; the ports of the removed L4 rows, looked up in a snapshot taken
      before the removal, go back to the pool. */
  method PruneTick(table: RoutingTable, l4: L4.L4RoutingTable, pool: L4PortPool, staleTimeout: nat, now: nat)
    returns (changed: bool, ghost snap: seq<L4.Entry>)
    requires pool.Model().Ranged() && L4.Keyed(l4.byApp)
    modifies table`byApp, l4, pool
    ensures pool.Model().Ranged() && L4.Keyed(l4.byApp)
    ensures L4.IsSnapshot(old(l4.byApp), snap)
    ensures table.byApp == old(table.byApp) - StaleKeys(old(table.byApp), staleTimeout, now)
    ensures l4.byApp == old(l4.byApp) - L4.StaleKeys(old(l4.byApp), staleTimeout, now)
    ensures pool.Model() ==
        ReleaseAll(old(pool.Model()), Proto.DuePorts(snap, L4.StaleKeys(old(l4.byApp), staleTimeout, now)), now)
    ensures changed <==> table.byApp != old(table.byApp) || l4.byApp != old(l4.byApp)
  {
    var removedHttp := table.RemoveStale(staleTimeout, now);
    var before := l4.Snapshot();
    var removedL4 := l4.RemoveStale(staleTimeout, now);
    ReleaseRemoved(pool, before, removedL4, now);
    snap := before;
    changed := removedHttp != [] || removedL4 != [];
    assert removedHttp != [] ==> removedHttp[0] in Elements(removedHttp);
    assert removedL4 != [] ==> removedL4[0] in Elements(removedL4);
    assert removedHttp == [] ==> table.byApp == old(table.byApp);
    assert removedL4 == [] ==> l4.byApp == old(l4.byApp);
  }

  method ReleaseRemoved(pool: L4PortPool, snap: seq<L4.Entry>, removed: seq<L4.AppKey>, now: nat)
    requires pool.Model().Ranged()
    modifies pool
    ensures pool.Model().Ranged()
    ensures pool.Model() == ReleaseAll(old(pool.Model()), Proto.DuePorts(snap, Elements(removed)), now)
  {
    for i := 0 to |snap|
      invariant pool.Model().Ranged()
      invariant ReleaseAll(old(pool.Model()), Proto.DuePorts(snap, Elements(removed)), now) ==
                ReleaseAll(pool.Model(), Proto.DuePorts(snap[i..], Elements(removed)), now)
    {
      assert snap[i..][0] == snap[i] && snap[i..][1..] == snap[i + 1..];
      ghost var rest := Proto.DuePorts(snap[i + 1..], Elements(removed));
      assert Proto.DuePorts(snap[i..], Elements(removed)) ==
          (if snap[i].key in Elements(removed) then [snap[i].port] else []) + rest;
      assert [] + rest == rest && ([snap[i].port] + rest)[1..] == rest;
      if snap[i].key in removed {
        pool.Release(snap[i].port, now);
      }
    }
  }

  /** A tick that nothing interrupts is a guarded run of the interleaved protocol, so the safety theorem
      covers it; only the tasks that run between its three locked sections need the guards. */
  lemma TickIsARun(env: Proto.Env, s: Proto.State, id: nat, snap: seq<L4.Entry>)
    requires s.pool.Ranged() && s.hb.Quiet? && id !in s.pruners && L4.IsSnapshot(s.table, snap)
    ensures var steps := [Proto.TakeSnapshot(id, snap), Proto.Prune(id), Proto.ReleaseDue(id)];
            var stale := L4.StaleKeys(s.table, env.staleTimeout, s.now);
            && Proto.CanRun(env, s, steps) && Proto.GuardedRun(env, s, steps)
            && Proto.After(env, s, steps) ==
                s.(table := s.table - stale, pool := ReleaseAll(s.pool, Proto.DuePorts(snap, stale), s.now))
  {
    var take, prune, due := Proto.TakeSnapshot(id, snap), Proto.Prune(id), Proto.ReleaseDue(id);
    var t := Proto.Do(env, s, take);
    var u := Proto.Do(env, t, prune);
    assert [] + [take] == [take] && [take] + [prune] == [take, prune] && [take, prune] + [due] == [take, prune, due];
    assert Proto.CanRun(env, s, []) && Proto.After(env, s, []) == s;
    Proto.RunExtends(env, s, [], take);
    Proto.RunExtends(env, s, [take], prune);
    Proto.RunExtends(env, s, [take, prune], due);
    assert u.pruners - {id} == s.pruners;
  }
}
