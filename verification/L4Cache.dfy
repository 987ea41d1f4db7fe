/** Ports that come from the control-plane cache (edge-ingress/src/heartbeats.rs, `apply_heartbeat`): when using
    one is safe, and that a control plane with fixed assignments outside the pool's range always meets that. */
module L4Cache {
  import opened Common
  import opened PortPool
  import opened L4Table
  import opened L4Protocol
  import opened L4Invariant
  import opened L4Safety

  /** Registering an app on a cached port, uninterrupted, keeps the invariant exactly when no other app is
      live on it and, if it lies in the pool's range, the pool holds it and no pruner is about to release it. */
  lemma CachedIsSafeIff(env: Env, s: State, key: AppKey, upstream: u16, status: string, p: u16)
    requires Inv(s) && s.hb.Open? && !HasRow(s.table, key, s.hb.worker) && Routable(status)
    ensures var step := Resolve(key, upstream, status, Some(p));
            && CanRun(env, s, [step, Commit])
            && (Inv(After(env, s, [step, Commit])) <==>
                IsFor(s.table, key, p) && (s.pool.InRange(p) ==> p in s.pool.taken && p !in Debts(s.pruners)))
  {
    var step := Resolve(key, upstream, status, Some(p));
    var u := Do(env, s, step);
    var t := Do(env, u, Commit);
    assert [] + [step] == [step] && [step] + [Commit] == [step, Commit];
    assert CanRun(env, s, []) && After(env, s, []) == s;
    RunExtends(env, s, [], step);
    RunExtends(env, s, [step], Commit);
    CachedRow(s, t, key, p, upstream);
  }

  lemma CachedRow(s: State, t: State, key: AppKey, p: u16, upstream: u16)
    requires Inv(s) && s.hb.Open?
    requires t == s.(table := s.table[key := Entry(key, p, s.hb.worker, upstream, s.now)])
    ensures Inv(t) <==> IsFor(s.table, key, p) && (s.pool.InRange(p) ==> p in s.pool.taken && p !in Debts(s.pruners))
  {
    if IsFor(s.table, key, p) && (s.pool.InRange(p) ==> p in s.pool.taken && p !in Debts(s.pruners)) {
      CachedRowIsSafe(s, t, key, p, upstream);
    } else {
      CachedRowIsUnsafe(s, t, key, p, upstream);
    }
  }

  lemma CachedRowIsSafe(s: State, t: State, key: AppKey, p: u16, upstream: u16)
    requires Inv(s) && s.hb.Open? && IsFor(s.table, key, p)
    requires s.pool.InRange(p) ==> p in s.pool.taken && p !in Debts(s.pruners)
    requires t == s.(table := s.table[key := Entry(key, p, s.hb.worker, upstream, s.now)])
    ensures Inv(t)
  {
    LiveAfterUpsert(s.table, key, p, s.hb.worker, upstream, "running", s.now);
    assert forall k :: k in s.table && k != key ==> t.table[k] == s.table[k];
  }

  lemma CachedRowIsUnsafe(s: State, t: State, key: AppKey, p: u16, upstream: u16)
    requires Inv(s) && !(IsFor(s.table, key, p) && (s.pool.InRange(p) ==> p in s.pool.taken && p !in Debts(s.pruners)))
    requires s.hb.Open? && t == s.(table := s.table[key := Entry(key, p, s.hb.worker, upstream, s.now)])
    ensures !Inv(t)
  {
    assert t.table[key].port in Live(t.table);
    if k :| k in s.table && k != key && s.table[k].port == p { assert t.table[k] == s.table[k]; }
    assert s.pool.InRange(p) && p in Debts(s.pruners) ==> InDebt(t, p);
  }

  // ---------------------------------------------------------------- fixed assignments

  predicate Assigned(cp: map<AppKey, u16>, key: AppKey, p: u16) { key in cp && cp[key] == p }

  /** One port per app, distinct and outside the pool's range. */
  ghost predicate AssignmentsApart(cp: map<AppKey, u16>, pool: Pool) {
    && (forall k :: k in cp ==> !pool.InRange(cp[k]))
    && (forall k, l :: k in cp && l in cp && k != l ==> cp[k] != cp[l])
  }

  /** Whatever the cache answers for an app, now or never, is the app's assignment. */
  ghost predicate FromAssignments(cp: map<AppKey, u16>, step: Step) {
    step.Resolve? && step.cached.Some? ==> Assigned(cp, step.key, step.cached.value)
  }

  /** The step is guarded apart from what it says of the cache. */
  ghost predicate GuardedElsewhere(env: Env, s: State, step: Step)
    requires Enabled(s, step)
  {
    step.Resolve? || Guarded(env, s, step)
  }

  ghost predicate AssignedRun(env: Env, cp: map<AppKey, u16>, s: State, steps: seq<Step>)
    requires CanRun(env, s, steps)
    decreases |steps|
  {
    steps == [] ||
    (FromAssignments(cp, steps[0]) && GuardedElsewhere(env, s, steps[0])
        && AssignedRun(env, cp, Do(env, s, steps[0]), steps[1..]))
  }

  /** Ports outside the range are where the control plane put them. */
  ghost predicate AsAssigned(cp: map<AppKey, u16>, s: State) {
    && (forall k :: k in s.table ==> s.pool.InRange(s.table[k].port) || Assigned(cp, k, s.table[k].port))
    && (s.hb.Holding? ==> s.pool.InRange(s.hb.port) || Assigned(cp, s.hb.key, s.hb.port))
  }

  lemma StepStaysAssigned(env: Env, cp: map<AppKey, u16>, s: State, step: Step)
    requires Inv(s) && AsAssigned(cp, s) && AssignmentsApart(cp, s.pool) && Enabled(s, step)
        && FromAssignments(cp, step)
    ensures AsAssigned(cp, Do(env, s, step)) && AssignmentsApart(cp, Do(env, s, step).pool)
    ensures step.Resolve? ==> Guarded(env, s, step)
  {
    StepKeepsRange(env, s, step);
    var t := Do(env, s, step);
    assert forall p :: t.pool.InRange(p) == s.pool.InRange(p);
    if step.Resolve? { PoolAfterResolve(env, s, step); }
  }

  /** With fixed assignments outside the pool's range, at most one app per port, every use of the cache is
      guarded, however the cache warms up, goes stale or is refreshed during the run. */
  lemma {:induction false} AssignedRunsAreGuarded(env: Env, cp: map<AppKey, u16>, s: State, steps: seq<Step>)
    requires Inv(s) && AsAssigned(cp, s) && AssignmentsApart(cp, s.pool)
    requires CanRun(env, s, steps) && AssignedRun(env, cp, s, steps)
    ensures GuardedRun(env, s, steps)
    decreases |steps|
  {
    if steps != [] {
      StepStaysAssigned(env, cp, s, steps[0]);
      StepKeepsInv(env, s, steps[0]);
      AssignedRunsAreGuarded(env, cp, Do(env, s, steps[0]), steps[1..]);
    }
  }
}
