/** The invariant of `L4Protocol`, and that the steps of the heartbeat task keep it. */
module L4Invariant {
  import opened Common
  import opened PortPool
  import opened L4Table
  import opened L4Protocol

  function Live(t: Table): set<u16> { set k | k in t :: t[k].port }

  predicate Owes(ps: map<nat, Pruner>, id: nat, p: u16) {
    id in ps && ps[id].Owing? && p in ps[id].due
  }

  /** All releases still owed. */
  function Debts(ps: map<nat, Pruner>): (d: set<u16>)
    ensures forall p :: p in d <==> exists id :: Owes(ps, id, p)
  {
    set id, p | id in ps && ps[id].Owing? && p in ps[id].due && Owes(ps, id, p) :: p
  }

  /** A pool port that some pruner is about to release. */
  predicate InDebt(s: State, p: u16) { s.pool.InRange(p) && p in Debts(s.pruners) }

  ghost predicate TableOk(s: State) {
    && Keyed(s.table)
    && (forall k :: k in s.table ==> s.table[k].lastSeen <= s.now)
    && (forall k :: k in s.table && s.pool.InRange(s.table[k].port) ==> s.table[k].port in s.pool.taken)
    && DistinctLivePorts(s.table)
  }

  /** No two live rows share a public port. */
  ghost predicate DistinctLivePorts(t: Table) {
    forall k, l :: k in t && l in t && k != l ==> t[k].port != t[l].port
  }

  /** A pool port some pruner owes is held, belongs to no live row, and is owed once. */
  ghost predicate DebtsOk(s: State) {
    && (forall p :: InDebt(s, p) ==> p in s.pool.taken && p !in Live(s.table))
    && (forall i, j, p :: Owes(s.pruners, i, p) && Owes(s.pruners, j, p) && i != j ==> !s.pool.InRange(p))
  }

  /** Rows not touched since a pruner's snapshot are in it unchanged. */
  ghost predicate SnapshotsOk(s: State) {
    forall id :: id in s.pruners && s.pruners[id].Snapped? ==>
      && s.pruners[id].at <= s.now
      && (forall k :: k in s.table && s.table[k].lastSeen < s.pruners[id].at ==> s.table[k] in s.pruners[id].snap)
      && OneRowPerKey(s.pruners[id].snap)
  }

  ghost predicate OneRowPerKey(snap: seq<Entry>) {
    forall e, f :: e in snap && f in snap && e.key == f.key ==> e == f
  }

  ghost predicate HeartbeatOk(s: State) {
    match s.hb
    case Holding(worker, key, port, source, _, _) =>
      (match source
       case Pooled => port in s.pool.taken && port !in Live(s.table) && port !in Debts(s.pruners)
       case Cached => !s.pool.InRange(port) && IsFor(s.table, key, port)
       case Reused =>
         if key in s.table then s.table[key].port == port && s.table[key].worker == worker
         else InDebt(s, port) || (!s.pool.InRange(port) && IsFor(s.table, key, port)))
    case Leaving(worker, snap) =>
      && OneRowPerKey(snap)
      && (forall k :: k in s.table && s.table[k].worker == worker ==> s.table[k] in snap)
      && (forall e :: e in snap && e.key in s.table ==> s.table[e.key] == e)
      && (forall e :: e in snap && e.key !in s.table && s.pool.InRange(e.port) ==> InDebt(s, e.port))
    case _ => true
  }

  ghost predicate Inv(s: State) {
    && Sound(s.pool) && TableOk(s) && DebtsOk(s) && SnapshotsOk(s) && HeartbeatOk(s)
  }

  // ---------------------------------------------------------------- steps of the heartbeat task

  lemma ResolveKeepsInv(env: Env, s: State, step: Step)
    requires Inv(s) && step.Resolve? && Enabled(s, step) && Guarded(env, s, step)
    ensures Inv(Do(env, s, step))
  {
    PoolAfterResolve(env, s, step);
    var t := Do(env, s, step);
    assert t.pruners == s.pruners && t.table == s.table;
  }

  lemma PoolAfterResolve(env: Env, s: State, step: Step)
    requires Sound(s.pool) && step.Resolve? && Enabled(s, step)
    ensures var t := Do(env, s, step);
            && Sound(t.pool) && t.pool.start == s.pool.start && t.pool.end == s.pool.end && s.pool.taken <= t.pool.taken
            && (t.hb.Holding? && t.hb.source.Pooled? ==> t.hb.port in t.pool.taken && t.hb.port !in s.pool.taken)
            && (forall p :: t.pool.InRange(p) == s.pool.InRange(p))
  {
    AcquireKeepsSound(s.pool, s.now);
    AcquireIsCompleteCyclicSearch(s.pool, s.now);
  }

  lemma LiveAfterUpsert(t: Table, key: AppKey, port: u16, worker: string, upstream: u16, status: string, now: nat)
    requires DistinctLivePorts(t)
    ensures Live(Upserted(t, key, port, worker, upstream, status, now)) ==
            Live(t) - (if key in t then {t[key].port} else {}) + (if Routable(status) then {port} else {})
  {
    var u := Upserted(t, key, port, worker, upstream, status, now);
    assert forall k :: k in u && k != key ==> k in t && u[k] == t[k];
    forall p | p in Live(t) && !(key in t && p == t[key].port) ensures p in Live(u) {
      var k :| k in t && t[k].port == p;
      assert u[k] == t[k];
    }
    if Routable(status) { assert u[key].port in Live(u); }
  }

  lemma CommitKeepsInv(env: Env, s: State)
    requires Inv(s) && Enabled(s, Commit) && ReuseIsCurrent(s)
    ensures Inv(Do(env, s, Commit))
  {
    LiveAfterUpsert(s.table, s.hb.key, s.hb.port, s.hb.worker, s.hb.upstream, s.hb.status, s.now);
    if s.hb.key in s.table { assert s.table[s.hb.key].port in Live(s.table); }
  }

  lemma FinishLeaveKeepsInv(env: Env, s: State)
    requires Inv(s) && Enabled(s, FinishLeave) && LeaveIsCurrent(s)
    ensures Inv(Do(env, s, FinishLeave))
  {
    var ports := WorkerPorts(s.hb.snap, s.hb.worker);
    ReleaseAllEffect(s.pool, ports, s.now);
    var t := Do(env, s, FinishLeave);
    assert Live(t.table) <= Live(s.table);
    assert forall p :: t.pool.InRange(p) == s.pool.InRange(p);
    forall p | p in ports && s.pool.InRange(p) ensures p in Live(s.table) && p !in Live(t.table) {
      var e :| e in s.hb.snap && e.worker == s.hb.worker && e.port == p;
      assert s.table[e.key] == e;
    }
  }

  /** Clock ticks, message boundaries and snapshots change neither pool nor table. */
  lemma ObservingKeepsInv(env: Env, s: State, step: Step)
    requires step.Wait? || step.Begin? || step.End? || step.BeginLeave?
    requires Inv(s) && Enabled(s, step)
    ensures Inv(Do(env, s, step))
  {
    var t := Do(env, s, step);
    assert t.pool == s.pool && t.table == s.table && t.pruners == s.pruners;
  }
}
