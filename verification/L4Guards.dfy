/** What happens when a guard of `L4Protocol` fails: from the states concerned, for every staleness bound, cooldown
    and range, some continuation releases the port of a live app. */
module L4Guards {
  import opened Common
  import opened PortPool
  import opened L4Table
  import opened L4Protocol
  import opened L4Invariant
  import opened L4Pruning
  import opened L4Safety
  import opened L4Conservation

  /** A live row whose pool port is no longer held. */
  ghost predicate LostPort(s: State, key: AppKey) {
    key in s.table && s.pool.InRange(s.table[key].port) && s.table[key].port !in s.pool.taken
  }

  // ---------------------------------------------------------------- every free port can be reached

  /** How many ports the cursor passes before it comes to `p`. */
  function Ahead(pool: Pool, p: u16): nat
    requires pool.Ranged() && pool.InRange(p)
  {
    if pool.next <= p then p as int - pool.next as int else p as int - pool.next as int + pool.Size()
  }

  /** While `p` is free, an acquisition gives `p` or brings the cursor closer to it. */
  lemma NextTry(pool: Pool, now: nat, p: u16)
    requires Sound(pool) && pool.InRange(p) && p !in pool.taken && !StillCools(pool.cooling, p, now)
    ensures var (after, r) := Acquired(pool, now);
            && r.Some? && Sound(after) && after.InRange(p)
            && (r.value != p ==>
                p !in after.taken && !StillCools(after.cooling, p, now) && Ahead(after, p) < Ahead(pool, p))
  {
    AcquireIsCompleteCyclicSearch(pool, now);
    AcquireKeepsSound(pool, now);
    var reaped := pool.(cooling := Reap(pool.cooling, now));
    var q := Acquired(pool, now).1.value;
    var j :| 0 <= j < reaped.Size() && q == reaped.Nth(j) && forall i :: 0 <= i < j ==> reaped.Blocked(reaped.Nth(i));
    assert reaped.Nth(Ahead(pool, p)) == p && !reaped.Blocked(p);
  }

  /** One app takes the next free port. */
  lemma TakeNext(env: Env, s: State, key: AppKey, status: string) returns (steps: seq<Step>)
    requires s.pool.Ranged() && s.hb.Open? && key !in s.table && Acquired(s.pool, s.now).1.Some?
    ensures CanRun(env, s, steps) && GuardedRun(env, s, steps) && forall i :: 0 <= i < |steps| ==> !steps[i].Prune?
    ensures var (pool, r) := Acquired(s.pool, s.now);
            After(env, s, steps) ==
                s.(pool := pool, table := Upserted(s.table, key, r.value, s.hb.worker, 8082, status, s.now))
  {
    var step := Resolve(key, 8082, status, None);
    assert CanRun(env, s, []) && After(env, s, []) == s && [] + [step] == [step] && [step] + [Commit] == [step, Commit];
    RunExtends(env, s, [], step);
    RunExtends(env, s, [step], Commit);
    steps := [step, Commit];
  }

  /** A free port can be given to any app without a row, by guarded steps of the heartbeat alone: reports of a
      non-routable status use up the ports before it. */
  lemma {:induction false} WalkTo(env: Env, s: State, key: AppKey, p: u16) returns (steps: seq<Step>)
    requires Sound(s.pool) && s.hb.Open? && key !in s.table
    requires s.pool.InRange(p) && p !in s.pool.taken && !StillCools(s.pool.cooling, p, s.now)
    ensures CanRun(env, s, steps) && GuardedRun(env, s, steps) && forall i :: 0 <= i < |steps| ==> !steps[i].Prune?
    ensures var t := After(env, s, steps);
            && t == s.(pool := t.pool, table := s.table[key := Entry(key, p, s.hb.worker, 8082, s.now)])
            && Sound(t.pool) && t.pool.InRange(p) && p in t.pool.taken
    decreases Ahead(s.pool, p)
  {
    NextTry(s.pool, s.now, p);
    var q := Acquired(s.pool, s.now).1.value;
    AcquireIsCompleteCyclicSearch(s.pool, s.now);
    if q == p {
      steps := TakeNext(env, s, key, "running");
    } else {
      var first := TakeNext(env, s, key, "stopped");
      var t := After(env, s, first);
      assert t.table == s.table;
      var more := WalkTo(env, t, key, p);
      RunsConcatenate(env, s, first, more);
      steps := first + more;
    }
  }

  /** From a state between messages in which some pruner owes a port that is free or cooling, an app without
      a row can be given that port, and then the pruner releases it. */
  lemma OwedFreePortIsLost(env: Env, s: State, id: nat, key: AppKey, p: u16) returns (steps: seq<Step>)
    requires Sound(s.pool) && s.hb.Quiet? && key !in s.table
    requires s.pool.InRange(p) && p !in s.pool.taken && Owes(s.pruners, id, p)
    requires forall c :: c in s.pool.cooling && c.port == p ==> c.until <= s.now + s.pool.cooldown
    ensures CanRun(env, s, steps) && GuardedRun(env, s, steps) && forall i :: 0 <= i < |steps| ==> !steps[i].Prune?
    ensures var t := After(env, s, steps);
            LostPort(t, key) && t.table[key].port == p && t.table[key].lastSeen == t.now
  {
    var wait, begin := Wait(s.pool.cooldown), Begin("10.0.0.2");
    var u := Do(env, Do(env, s, wait), begin);
    assert [] + [wait] == [wait] && [wait] + [begin] == [wait, begin] && CanRun(env, s, []) && After(env, s, []) == s;
    RunExtends(env, s, [], wait);
    RunExtends(env, s, [wait], begin);
    var walk := WalkTo(env, u, key, p);
    RunsConcatenate(env, s, [wait, begin], walk);
    steps := [wait, begin] + walk;
    var t := After(env, s, steps);
    RunExtends(env, s, steps, End);
    steps := steps + [End];
    var v := Do(env, t, End);
    ReleaseAllEffect(v.pool, v.pruners[id].due, v.now);
    RunExtends(env, s, steps, ReleaseDue(id));
    steps := steps + [ReleaseDue(id)];
  }

  /** Departures: from every invariant state in which a pruner removed a row with a pool port that the departing
      worker's snapshot still lists, finishing the departure lets that port be given to an app and then be
      released while the app is live. */
  lemma StaleLeaveReleasesLivePort(env: Env, s: State) returns (key: AppKey, steps: seq<Step>)
    requires Inv(s) && Enabled(s, FinishLeave) && !LeaveIsCurrent(s)
    ensures var t := Do(env, s, FinishLeave);
            CanRun(env, t, steps) && GuardedRun(env, t, steps) && LostPort(After(env, t, steps), key)
  {
    var e :| e in s.hb.snap && e.worker == s.hb.worker && s.pool.InRange(e.port) && e.key !in s.table;
    var id :| Owes(s.pruners, id, e.port);
    var t := Do(env, s, FinishLeave);
    ReleasedTwice(env, s, e);
    key := e.key;
    steps := OwedFreePortIsLost(env, t, id, key, e.port);
  }

  /** After the departure the port of the removed row is no longer held, and a pruner still owes it. */
  lemma ReleasedTwice(env: Env, s: State, e: Entry)
    requires Inv(s) && Enabled(s, FinishLeave)
    requires e in s.hb.snap && e.worker == s.hb.worker && InDebt(s, e.port)
    ensures var t := Do(env, s, FinishLeave);
            && Sound(t.pool) && t.pool.InRange(e.port) && e.port !in t.pool.taken
            && forall c :: c in t.pool.cooling && c.port == e.port ==> c.until <= t.now + t.pool.cooldown
  {
    var t, p := Do(env, s, FinishLeave), e.port;
    ReleaseAllEffect(s.pool, WorkerPorts(s.hb.snap, s.hb.worker), s.now);
    var released := Cooling(p, s.now + s.pool.cooldown);
    assert p in WorkerPorts(s.hb.snap, s.hb.worker) && released in t.pool.cooling;
    forall c | c in t.pool.cooling && c.port == p ensures c == released {
    }
  }

  // ---------------------------------------------------------------- runs from an idle ingress

  const API := AppKey("t_acme", "api")
  const DB := AppKey("t_acme", "db")

  ghost predicate Reached(env: Env, init: State, steps: seq<Step>, s: State) {
    CanRun(env, init, steps) && After(env, init, steps) == s
  }

  /** Every removal comes at most `g` after its snapshot, and the other guards hold. */
  ghost predicate WithinRun(env: Env, g: nat, s: State, steps: seq<Step>)
    requires CanRun(env, s, steps)
    decreases |steps|
  {
    steps == [] || (Guarded(Env(g), s, steps[0]) && WithinRun(env, g, Do(env, s, steps[0]), steps[1..]))
  }

  lemma {:induction false} WithinConcat(env: Env, g: nat, s: State, steps: seq<Step>, more: seq<Step>)
    requires CanRun(env, s, steps) && CanRun(env, After(env, s, steps), more) && CanRun(env, s, steps + more)
    ensures WithinRun(env, g, s, steps + more) <==>
        WithinRun(env, g, s, steps) && WithinRun(env, g, After(env, s, steps), more)
    decreases |steps|
  {
    if steps == [] {
      assert steps + more == more;
    } else {
      assert (steps + more)[1..] == steps[1..] + more;
      WithinConcat(env, g, Do(env, s, steps[0]), steps[1..], more);
    }
  }

  lemma {:induction false} WithinIsGuarded(env: Env, g: nat, s: State, steps: seq<Step>)
    requires CanRun(env, s, steps)
    ensures WithinRun(env, g, s, steps) && g <= env.staleTimeout ==> GuardedRun(env, s, steps)
    ensures GuardedRun(env, s, steps) && (forall i :: 0 <= i < |steps| ==> !steps[i].Prune?) ==>
        WithinRun(env, g, s, steps)
    decreases |steps|
  {
    if steps != [] { WithinIsGuarded(env, g, Do(env, s, steps[0]), steps[1..]); }
  }

  /** One more step. */
  lemma Go(env: Env, g: nat, init: State, steps: seq<Step>, s: State, step: Step) returns (longer: seq<Step>, t: State)
    requires Reached(env, init, steps, s) && WithinRun(env, g, init, steps) && Enabled(s, step)
        && Guarded(Env(g), s, step)
    ensures longer == steps + [step] && t == Do(env, s, step) && Reached(env, init, longer, t)
        && WithinRun(env, g, init, longer)
  {
    RunExtends(env, init, steps, step);
    assert [step][1..] == [];
    WithinConcat(env, g, init, steps, [step]);
    longer, t := steps + [step], Do(env, s, step);
  }

  /** One message carrying one TCP app. */
  lemma Report(env: Env, g: nat, init: State, steps: seq<Step>, s: State, worker: string, key: AppKey, status: string,
      cached: Option<u16>)
    returns (longer: seq<Step>, t: State)
    requires Reached(env, init, steps, s) && WithinRun(env, g, init, steps)
    requires s.pool.Ranged() && s.hb.Quiet? && worker != "" && !HasRow(s.table, key, worker)
    requires cached.Some? ==> !s.pool.InRange(cached.value) && IsFor(s.table, key, cached.value)
    requires ResolvePort(s.pool, s.table, key, worker, cached, s.now).1.Some?
    ensures var (pool, r) := ResolvePort(s.pool, s.table, key, worker, cached, s.now);
            t == s.(pool := pool, table := Upserted(s.table, key, r.value.0, worker, 8082, status, s.now))
    ensures Reached(env, init, longer, t) && WithinRun(env, g, init, longer)
  {
    longer, t := Go(env, g, init, steps, s, Begin(worker));
    longer, t := Go(env, g, init, longer, t, Resolve(key, 8082, status, cached));
    longer, t := Go(env, g, init, longer, t, Commit);
    longer, t := Go(env, g, init, longer, t, End);
  }

  lemma FreshAcquire(start: u16, end: u16, cooldown: nat, now: nat)
    requires 0 < start <= end
    ensures Acquired(Fresh(start, end, cooldown), now) ==
            (Fresh(start, end, cooldown).(next := if start == end then start else start + 1, taken := {start}),
                Some(start))
  {
    var pool := Fresh(start, end, cooldown);
    assert !pool.Blocked(start) && pool.(cooling := Reap(pool.cooling, now)) == pool && pool.taken + {start} == {start};
  }

  /** The state after an app registered at time 0 on a new pool. */
  ghost function Registered(start: u16, end: u16, cooldown: nat, row: Entry): State
    requires start <= end
  {
    State(0, Pool(if start == end then start else start + 1, start, end, cooldown, [], {start}), map[API := row],
        Quiet, map[])
  }

  lemma Register(env: Env, g: nat, start: u16, end: u16, cooldown: nat) returns (steps: seq<Step>, s: State, row: Entry)
    requires 0 < start <= end
    ensures row == Entry(API, start, "10.0.0.1", 8082, 0) && s == Registered(start, end, cooldown, row)
    ensures Reached(env, Initial(start, end, cooldown), steps, s)
        && WithinRun(env, g, Initial(start, end, cooldown), steps)
  {
    FreshAcquire(start, end, cooldown, 0);
    row := Entry(API, start, "10.0.0.1", 8082, 0);
    var init := Initial(start, end, cooldown);
    steps, s := Report(env, g, init, [], init, "10.0.0.1", API, "running", None);
  }

  // ---------------------------------------------------------------- leaks

  /** A port next to a range of one, for an app that finds the pool exhausted. */
  function Spare(start: u16, end: u16): Option<u16> {
    if start < end then None else if start < 0xFFFF then Some(start + 1) else Some(start - 1)
  }

  /** Whatever the range, bound and cooldown: an app that comes back from another worker leaks its port. */
  lemma WorkerChangeLeaks(env: Env, start: u16, end: u16, cooldown: nat) returns (steps: seq<Step>, s: State)
    requires 0 < start <= end
    ensures Reached(env, Initial(start, end, cooldown), steps, s)
        && GuardedRun(env, Initial(start, end, cooldown), steps)
    ensures Leaked(s, start)
  {
    var init, row := Initial(start, end, cooldown), Entry(API, start, "10.0.0.1", 8082, 0);
    steps, s, row := Register(env, env.staleTimeout, start, end, cooldown);
    assert start < end ==> !s.pool.Blocked(start + 1);
    steps, s := Report(env, env.staleTimeout, init, steps, s, "10.0.0.2", API, "running", Spare(start, end));
    WithinIsGuarded(env, env.staleTimeout, init, steps);
    assert s.table == map[API := s.table[API]];
  }

  /** Whatever the range, bound and cooldown: an app whose first report is not routable leaks the port it took. */
  lemma StatusLeaks(env: Env, start: u16, end: u16, cooldown: nat, status: string) returns (steps: seq<Step>, s: State)
    requires 0 < start <= end && !Routable(status)
    ensures Reached(env, Initial(start, end, cooldown), steps, s)
        && GuardedRun(env, Initial(start, end, cooldown), steps)
    ensures Leaked(s, start)
  {
    FreshAcquire(start, end, cooldown, 0);
    var init := Initial(start, end, cooldown);
    steps, s := Report(env, env.staleTimeout, init, [], init, "10.0.0.1", API, status, None);
    WithinIsGuarded(env, env.staleTimeout, init, steps);
  }

  // ---------------------------------------------------------------- the time bound is exact

  /** An app registers and departs while a pruner holds a snapshot with its row. */
  lemma DepartUnderSnapshot(env: Env, g: nat, start: u16, end: u16, cooldown: nat)
    returns (steps: seq<Step>, s: State, row: Entry)
    requires 0 < start <= end
    ensures row == Entry(API, start, "10.0.0.1", 8082, 0)
    ensures s ==
        State(0, Pool(if start == end then start else start + 1, start, end, cooldown, [Cooling(start, cooldown)], {}),
                       map[], Quiet, map[1 := Snapped([row], 0)])
    ensures Reached(env, Initial(start, end, cooldown), steps, s)
        && WithinRun(env, g, Initial(start, end, cooldown), steps)
  {
    var init := Initial(start, end, cooldown);
    steps, s, row := Register(env, g, start, end, cooldown);
    SingleRelease(row, {API}, s.pool, s.now);
    steps, s := Go(env, g, init, steps, s, TakeSnapshot(1, [row]));
    steps, s := Go(env, g, init, steps, s, BeginLeave("10.0.0.1", [row]));
    steps, s := Go(env, g, init, steps, s, FinishLeave);
    assert s.table == map[];
  }

  lemma SingleRelease(row: Entry, stale: set<AppKey>, pool: Pool, now: nat)
    requires row.key in stale && pool.taken == {row.port} && pool.cooling == []
    ensures DuePorts([row], stale) == [row.port] == WorkerPorts([row], row.worker)
    ensures ReleaseAll(pool, [row.port], now) == pool.(taken := {}, cooling := [Cooling(row.port, now + pool.cooldown)])
  {
    assert [row][1..] == [] && [row.port][1..] == [];
    assert pool.taken - {row.port} == {};
    var once := Released(pool, row.port, now);
    assert ReleaseAll(once, [], now) == once;
  }

  /** The app comes back on another port and falls silent; the removal comes one tick too late. */
  lemma PruneLate(env: Env, g: nat, start: u16, end: u16, cooldown: nat) returns (steps: seq<Step>, s: State)
    requires 0 < start <= end && env.staleTimeout < g
    ensures Reached(env, Initial(start, end, cooldown), steps, s)
        && WithinRun(env, g, Initial(start, end, cooldown), steps)
    ensures Sound(s.pool) && s.hb.Quiet? && s.table == map[] && s.now == env.staleTimeout + 1
    ensures s.pool.InRange(start) && start !in s.pool.taken && Owes(s.pruners, 1, start) && s.pool.cooldown == cooldown
    ensures forall c :: c in s.pool.cooling && c.port == start ==> c.until <= cooldown
  {
    var init, row := Initial(start, end, cooldown), Entry(API, start, "10.0.0.1", 8082, 0);
    steps, s, row := DepartUnderSnapshot(env, g, start, end, cooldown);
    var before := s.pool;
    assert start < end ==> !before.(cooling := Reap(before.cooling, 0)).Blocked(start + 1);
    steps, s := Report(env, g, init, steps, s, "10.0.0.1", API, "running", Spare(start, end));
    AcquireKeepsSound(before, 0);
    assert s.table == map[API := s.table[API]] && s.table[API].lastSeen == 0;
    steps, s := Go(env, g, init, steps, s, Wait(env.staleTimeout + 1));
    assert StaleKeys(s.table, env.staleTimeout, s.now) == {API};
    assert [row][1..] == [] && DuePorts([row], {API}) == [start];
    steps, s := Go(env, g, init, steps, s, Prune(1));
    assert s.table == map[];
  }

  /** For every staleness bound, cooldown and range: if removals may come even one tick later than the bound
      after their snapshots, some otherwise guarded run releases the port of an app just seen. */
  lemma LatePruneReleasesLivePort(env: Env, g: nat, start: u16, end: u16, cooldown: nat)
    returns (steps: seq<Step>, s: State)
    requires 0 < start <= end && env.staleTimeout < g
    ensures Reached(env, Initial(start, end, cooldown), steps, s)
        && WithinRun(env, g, Initial(start, end, cooldown), steps)
    ensures LostPort(s, DB) && s.table[DB].lastSeen == s.now
  {
    var init := Initial(start, end, cooldown);
    var t;
    steps, t := PruneLate(env, g, start, end, cooldown);
    var more := OwedFreePortIsLost(env, t, 1, DB, start);
    WithinIsGuarded(env, g, t, more);
    RunsConcatenate(env, init, steps, more);
    WithinConcat(env, g, init, steps, more);
    steps := steps + more;
    s := After(env, init, steps);
  }

  /** No run whose removals keep the bound `g` loses a live app's port. */
  ghost predicate SafeBound(env: Env, init: State, g: nat) {
    forall steps, key :: CanRun(env, init, steps) && WithinRun(env, g, init, steps) ==>
        !LostPort(After(env, init, steps), key)
  }

  /** The time bound of the safety theorem is exact, for every staleness bound, cooldown and range: a bound on
      the time from snapshot to removal is safe if and only if it is at most the staleness bound. */
  lemma PruneBoundIsExact(env: Env, start: u16, end: u16, cooldown: nat, g: nat)
    requires 0 < start <= end
    ensures SafeBound(env, Initial(start, end, cooldown), g) <==> g <= env.staleTimeout
  {
    var init := Initial(start, end, cooldown);
    if g <= env.staleTimeout {
      forall steps, key | CanRun(env, init, steps) && WithinRun(env, g, init, steps)
          ensures !LostPort(After(env, init, steps), key) {
        WithinIsGuarded(env, g, init, steps);
        RunKeepsInv(env, init, steps);
      }
    } else {
      var steps, s := LatePruneReleasesLivePort(env, g, start, end, cooldown);
      assert LostPort(After(env, init, steps), DB);
    }
  }
}
