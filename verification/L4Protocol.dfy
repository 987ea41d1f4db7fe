/** Heartbeats and pruners sharing the port pool and the L4 table
    (edge-ingress/src/heartbeats.rs, `apply_heartbeat` and the loop of `spawn_pruner`).

    Every step is what one task does between two lock boundaries. A heartbeat keeps the pool locked
    for a whole message but takes the table lock anew for each lookup and each upsert, so a pruner's
    snapshot and removal can fall between the two; a pruner takes the table lock twice and then the
    pool lock. Any number of pruners run at once. Time is a number that only grows. */
module L4Protocol {
  import opened Common
  import opened PortPool
  import opened L4Table

  /** What does not change during a run: the staleness bound. */
  datatype Env = Env(staleTimeout: nat)

  datatype Source = Reused | Cached | Pooled

  /** The heartbeat task: between messages, inside one, between lookup and upsert of one TCP app,
      or between the snapshot and the removal that a message without apps asks for. */
  datatype Heartbeat =
    | Quiet
    | Open(worker: string)
    | Holding(worker: string, key: AppKey, port: u16, source: Source, upstream: u16, status: string)
    | Leaving(worker: string, snap: seq<Entry>)

  /** A pruner that has taken its snapshot, or that has removed rows and owes these releases. */
  datatype Pruner = Snapped(snap: seq<Entry>, at: nat) | Owing(due: seq<u16>)

  datatype State = State(now: nat, pool: Pool, table: Table, hb: Heartbeat, pruners: map<nat, Pruner>)

  datatype Step =
    | Wait(dt: nat)
    | Begin(worker: string)
    | Resolve(key: AppKey, upstream: u16, status: string, cached: Option<u16>)
    | Commit
    | End
    | BeginLeave(worker: string, snap: seq<Entry>)
    | FinishLeave
    | TakeSnapshot(id: nat, snap: seq<Entry>)
    | Prune(id: nat)
    | ReleaseDue(id: nat)

  // ---------------------------------------------------------------- steps

  /** The app already has a row from this worker. */
  predicate HasRow(table: Table, key: AppKey, worker: string) { key in table && table[key].worker == worker }

  /** The public port for a TCP app: the one it already has on this worker, else the port the control-plane
      cache holds for it at this moment, else one from the pool. */
  function ResolvePort(pool: Pool, table: Table, key: AppKey, worker: string, cached: Option<u16>, now: nat)
    : (Pool, Option<(u16, Source)>)
    requires pool.Ranged()
  {
    if HasRow(table, key, worker) then (pool, Some((table[key].port, Reused)))
    else if cached.Some? then (pool, Some((cached.value, Cached)))
    else
      var (after, r) := Acquired(pool, now);
      (after, if r == None then None else Some((r.value, Pooled)))
  }

  /** The ports of the snapshot rows whose key was removed, in snapshot order. */
  function DuePorts(snap: seq<Entry>, removed: set<AppKey>): (due: seq<u16>)
    ensures forall p :: p in due <==> exists e :: e in snap && e.key in removed && e.port == p
  {
    if snap == [] then [] else
    (if snap[0].key in removed then [snap[0].port] else []) + DuePorts(snap[1..], removed)
  }

  function WorkerPorts(snap: seq<Entry>, worker: string): (ports: seq<u16>)
    ensures forall p :: p in ports <==> exists e :: e in snap && e.worker == worker && e.port == p
  {
    if snap == [] then [] else
    (if snap[0].worker == worker then [snap[0].port] else []) + WorkerPorts(snap[1..], worker)
  }

  ghost predicate Enabled(s: State, step: Step) {
    && s.pool.Ranged()
    && match step
       case Wait(_) => true
       case Begin(worker) => s.hb.Quiet? && worker != ""
       case Resolve(_, _, _, _) => s.hb.Open?
       case Commit => s.hb.Holding?
       case End => s.hb.Open?
       case BeginLeave(worker, snap) => s.hb.Quiet? && worker != "" && IsSnapshot(s.table, snap)
       case FinishLeave => s.hb.Leaving?
       case TakeSnapshot(id, snap) => id !in s.pruners && IsSnapshot(s.table, snap)
       case Prune(id) => id in s.pruners && s.pruners[id].Snapped?
       case ReleaseDue(id) => id in s.pruners && s.pruners[id].Owing? && s.hb.Quiet?
  }

  function Do(env: Env, s: State, step: Step): State
    requires Enabled(s, step)
  {
    match step
    case Wait(dt) => s.(now := s.now + dt)
    case Begin(worker) => s.(hb := Open(worker))
    case Resolve(key, upstream, status, cached) =>
      var (pool, r) := ResolvePort(s.pool, s.table, key, s.hb.worker, cached, s.now);
      if r == None then s.(pool := pool)
      else s.(pool := pool, hb := Holding(s.hb.worker, key, r.value.0, r.value.1, upstream, status))
    case Commit =>
      s.(table := Upserted(s.table, s.hb.key, s.hb.port, s.hb.worker, s.hb.upstream, s.hb.status, s.now),
         hb := Open(s.hb.worker))
    case End => s.(hb := Quiet)
    case BeginLeave(worker, snap) => s.(hb := Leaving(worker, snap))
    case FinishLeave =>
      s.(table := s.table - WorkerKeys(s.table, s.hb.worker),
         pool := ReleaseAll(s.pool, WorkerPorts(s.hb.snap, s.hb.worker), s.now),
         hb := Quiet)
    case TakeSnapshot(id, snap) => s.(pruners := s.pruners[id := Snapped(snap, s.now)])
    case Prune(id) =>
      var stale := StaleKeys(s.table, env.staleTimeout, s.now);
      s.(table := s.table - stale, pruners := s.pruners[id := Owing(DuePorts(s.pruners[id].snap, stale))])
    case ReleaseDue(id) =>
      s.(pool := ReleaseAll(s.pool, s.pruners[id].due, s.now), pruners := s.pruners - {id})
  }

  /** The condition under which a step is safe, read off the state before it. */
  ghost predicate Guarded(env: Env, s: State, step: Step)
    requires Enabled(s, step)
  {
    match step
    case Resolve(key, _, _, cached) => CachedIsApart(s, key, cached)
    case Commit => ReuseIsCurrent(s)
    case FinishLeave => LeaveIsCurrent(s)
    case Prune(id) => s.now <= s.pruners[id].at + env.staleTimeout
    case _ => true
  }

  /** A cached port that is about to be used lies outside the pool's range and is no other app's live port. */
  ghost predicate CachedIsApart(s: State, key: AppKey, cached: Option<u16>)
    requires s.hb.Open?
  {
    cached.Some? && !HasRow(s.table, key, s.hb.worker) ==>
        !s.pool.InRange(cached.value) && IsFor(s.table, key, cached.value)
  }

  /** No other app's row has the port. */
  ghost predicate IsFor(t: Table, key: AppKey, p: u16) { forall k :: k in t && k != key ==> t[k].port != p }

  /** The row whose pool port a heartbeat is about to write back is still in the table. */
  ghost predicate ReuseIsCurrent(s: State)
    requires s.hb.Holding?
  {
    s.hb.source.Reused? && Routable(s.hb.status) && s.pool.InRange(s.hb.port) ==> s.hb.key in s.table
  }

  /** The leaving worker's snapshot rows with pool ports are still in the table. */
  ghost predicate LeaveIsCurrent(s: State)
    requires s.hb.Leaving?
  {
    forall e :: e in s.hb.snap && e.worker == s.hb.worker && s.pool.InRange(e.port) ==> e.key in s.table
  }

  function Initial(start: u16, end: u16, cooldown: nat): State {
    State(0, Fresh(start, end, cooldown), map[], Quiet, map[])
  }

  // ---------------------------------------------------------------- whole runs

  ghost predicate CanRun(env: Env, s: State, steps: seq<Step>)
    decreases |steps|
  {
    steps == [] || (Enabled(s, steps[0]) && CanRun(env, Do(env, s, steps[0]), steps[1..]))
  }

  ghost function After(env: Env, s: State, steps: seq<Step>): State
    requires CanRun(env, s, steps)
    decreases |steps|
  {
    if steps == [] then s else After(env, Do(env, s, steps[0]), steps[1..])
  }

  ghost predicate GuardedRun(env: Env, s: State, steps: seq<Step>)
    requires CanRun(env, s, steps)
    decreases |steps|
  {
    steps == [] || (Guarded(env, s, steps[0]) && GuardedRun(env, Do(env, s, steps[0]), steps[1..]))
  }

  lemma {:induction false} RunsConcatenate(env: Env, s: State, steps: seq<Step>, more: seq<Step>)
    requires CanRun(env, s, steps) && CanRun(env, After(env, s, steps), more)
    ensures CanRun(env, s, steps + more) && After(env, s, steps + more) == After(env, After(env, s, steps), more)
    ensures GuardedRun(env, s, steps + more) <==>
        GuardedRun(env, s, steps) && GuardedRun(env, After(env, s, steps), more)
    decreases |steps|
  {
    if steps == [] {
      assert steps + more == more;
    } else {
      assert (steps + more)[1..] == steps[1..] + more;
      RunsConcatenate(env, Do(env, s, steps[0]), steps[1..], more);
    }
  }

  lemma RunExtends(env: Env, init: State, steps: seq<Step>, step: Step)
    requires CanRun(env, init, steps) && Enabled(After(env, init, steps), step)
    ensures CanRun(env, init, steps + [step])
    ensures After(env, init, steps + [step]) == Do(env, After(env, init, steps), step)
    ensures GuardedRun(env, init, steps + [step]) <==>
            GuardedRun(env, init, steps) && Guarded(env, After(env, init, steps), step)
  {
    assert [step][1..] == [];
    RunsConcatenate(env, init, steps, [step]);
  }
}
