/** Over the runs of `L4Protocol`: no port is lost except where it must be, lost ports stay lost, and a released port
    rests for its cooldown. */
module L4Conservation {
  import opened Common
  import opened PortPool
  import opened L4Table
  import opened L4Protocol
  import opened L4Invariant
  import opened L4Pruning
  import opened L4Safety

  // ---------------------------------------------------------------- conservation of ports

  /** The port a heartbeat has taken from the pool and not yet written to the table. */
  function InHand(s: State): set<u16> {
    if s.hb.Holding? && s.hb.source.Pooled? then {s.hb.port} else {}
  }

  /** Held ports are exactly the live ports of the range, those of the range a pruner owes, and the one in hand. */
  ghost predicate Conserved(s: State) {
    forall p :: s.pool.InRange(p) ==>
        (p in s.pool.taken <==> p in Live(s.table) || p in InHand(s) || p in Debts(s.pruners))
  }

  /** The app has a row whose port is from the pool's range. */
  ghost predicate HasPoolRow(s: State, key: AppKey) { key in s.table && s.pool.InRange(s.table[key].port) }

  /** An app that has a pool port, or is about to take one, is routable, and the first keeps its worker. */
  ghost predicate Steady(s: State, step: Step) {
    step.Resolve? && s.hb.Open? ==>
      && (HasPoolRow(s, step.key) ==> Routable(step.status) && HasRow(s.table, step.key, s.hb.worker))
      && (!HasRow(s.table, step.key, s.hb.worker) && step.cached == None ==> Routable(step.status))
  }

  ghost predicate SteadyRun(env: Env, s: State, steps: seq<Step>)
    requires CanRun(env, s, steps)
    decreases |steps|
  {
    steps == [] || (Steady(s, steps[0]) && SteadyRun(env, Do(env, s, steps[0]), steps[1..]))
  }

  ghost predicate SteadyHand(s: State) {
    s.hb.Holding? ==>
      && (s.hb.source.Pooled? ==> Routable(s.hb.status))
      && (HasPoolRow(s, s.hb.key) ==> Routable(s.hb.status) && s.hb.source.Reused?)
  }

  lemma StepConserves(env: Env, s: State, step: Step)
    requires Inv(s) && Conserved(s) && SteadyHand(s)
    requires Enabled(s, step) && Guarded(env, s, step) && Steady(s, step)
    ensures Conserved(Do(env, s, step)) && SteadyHand(Do(env, s, step))
  {
    match step
    case Resolve(_, _, _, _) => ResolveConserves(env, s, step);
    case Commit => CommitConservesIff(env, s);
    case FinishLeave => FinishLeaveConserves(env, s);
    case Prune(id) => PruneConserves(env, s, id);
    case ReleaseDue(id) => ReleaseDueConserves(env, s, id);
    case _ => SnapshotAddsNoDebt(env, s, step);
  }

  lemma ResolveConserves(env: Env, s: State, step: Step)
    requires Inv(s) && Conserved(s) && step.Resolve? && Enabled(s, step) && Steady(s, step)
    ensures Conserved(Do(env, s, step)) && SteadyHand(Do(env, s, step))
  {
    AcquireIsCompleteCyclicSearch(s.pool, s.now);
    var t := Do(env, s, step);
    assert t.table == s.table && t.pruners == s.pruners;
    assert t.pool.taken == s.pool.taken + InHand(t);
  }

  lemma ReleaseDueConserves(env: Env, s: State, id: nat)
    requires Inv(s) && Conserved(s) && Enabled(s, ReleaseDue(id))
    ensures Conserved(Do(env, s, ReleaseDue(id)))
  {
    ReleaseAllEffect(s.pool, s.pruners[id].due, s.now);
    var t := Do(env, s, ReleaseDue(id));
    assert forall j, p :: Owes(t.pruners, j, p) <==> Owes(s.pruners, j, p) && j != id;
    forall p | s.pool.InRange(p) ensures p in Debts(t.pruners) <==> p in Debts(s.pruners) && p !in s.pruners[id].due {
      assert p in s.pruners[id].due ==> Owes(s.pruners, id, p);
      if j :| Owes(t.pruners, j, p) { assert Owes(s.pruners, j, p); }
      if p !in s.pruners[id].due && p in Debts(s.pruners) {
        var j :| Owes(s.pruners, j, p);
        assert Owes(t.pruners, j, p);
      }
    }
    forall p | s.pool.InRange(p) && p in s.pruners[id].due ensures p !in Live(s.table) {
      assert Owes(s.pruners, id, p) && InDebt(s, p);
    }
  }

  lemma PruneConserves(env: Env, s: State, id: nat)
    requires Inv(s) && Conserved(s) && SteadyHand(s)
    requires Enabled(s, Prune(id)) && Guarded(env, s, Prune(id))
    ensures Conserved(Do(env, s, Prune(id)))
  {
    PrunedDebts(env, s, id);
  }

  /** The pool ports a departure releases are those of the rows it removes. */
  lemma LeavingPorts(env: Env, s: State, p: u16)
    requires Inv(s) && Enabled(s, FinishLeave) && LeaveIsCurrent(s) && s.pool.InRange(p)
    ensures var ports := WorkerPorts(s.hb.snap, s.hb.worker);
            var t := Do(env, s, FinishLeave);
            && (p in ports ==> p in Live(s.table) && p !in Live(t.table))
            && (p in Live(s.table) && p !in ports ==> p in Live(t.table))
            && (p in Live(t.table) ==> p in Live(s.table))
  {
    var t := Do(env, s, FinishLeave);
    if e :| e in s.hb.snap && e.worker == s.hb.worker && e.port == p { assert s.table[e.key] == e; }
    if k :| k in s.table && s.table[k].port == p {
      if s.table[k].worker == s.hb.worker { assert s.table[k] in s.hb.snap; } else { assert t.table[k] == s.table[k]; }
    }
  }

  lemma FinishLeaveConserves(env: Env, s: State)
    requires Inv(s) && Conserved(s)
    requires Enabled(s, FinishLeave) && LeaveIsCurrent(s)
    ensures Conserved(Do(env, s, FinishLeave))
  {
    ReleaseAllEffect(s.pool, WorkerPorts(s.hb.snap, s.hb.worker), s.now);
    var t := Do(env, s, FinishLeave);
    forall p | s.pool.InRange(p)
      ensures p in t.pool.taken <==> p in Live(t.table) || p in InHand(t) || p in Debts(t.pruners)
    {
      LeavingPorts(env, s, p);
      assert p in Live(s.table) ==> !InDebt(s, p);
    }
  }

  lemma {:induction false} RunConserves(env: Env, s: State, steps: seq<Step>)
    requires Inv(s) && Conserved(s) && SteadyHand(s)
    requires CanRun(env, s, steps) && GuardedRun(env, s, steps) && SteadyRun(env, s, steps)
    ensures Conserved(After(env, s, steps))
    decreases |steps|
  {
    if steps != [] {
      StepKeepsInv(env, s, steps[0]);
      StepConserves(env, s, steps[0]);
      RunConserves(env, Do(env, s, steps[0]), steps[1..]);
    }
  }

  /** Port conservation: in every guarded run of steady apps nothing leaks. */
  lemma PortsAreConserved(env: Env, start: u16, end: u16, cooldown: nat, steps: seq<Step>)
    requires 0 < start <= end
    requires CanRun(env, Initial(start, end, cooldown), steps)
    requires GuardedRun(env, Initial(start, end, cooldown), steps)
        && SteadyRun(env, Initial(start, end, cooldown), steps)
    ensures Conserved(After(env, Initial(start, end, cooldown), steps))
  {
    RunConserves(env, Initial(start, end, cooldown), steps);
  }

  /** Which upserts lose a port, exactly: with a routable status those that write another port over a row
      with a pool port; with any other status those of an app that has a pool port or has just taken one. */
  lemma CommitConservesIff(env: Env, s: State)
    requires Inv(s) && Conserved(s) && Enabled(s, Commit) && ReuseIsCurrent(s)
    ensures Conserved(Do(env, s, Commit)) <==>
            if Routable(s.hb.status) then HasPoolRow(s, s.hb.key) ==> s.hb.source.Reused?
            else !s.hb.source.Pooled? && !HasPoolRow(s, s.hb.key)
  {
    LiveAfterUpsert(s.table, s.hb.key, s.hb.port, s.hb.worker, s.hb.upstream, s.hb.status, s.now);
    if s.hb.key in s.table {
      var p := s.table[s.hb.key].port;
      assert p in Live(s.table);
      assert s.pool.InRange(p) ==> p in s.pool.taken && !InDebt(s, p);
    }
  }

  /** Held, but neither live nor owed nor in hand. */
  ghost predicate Leaked(s: State, p: u16) {
    p in s.pool.taken && p !in Live(s.table) && p !in InHand(s) && p !in Debts(s.pruners)
  }

  lemma StepKeepsLeak(env: Env, s: State, step: Step, p: u16)
    requires Inv(s) && Enabled(s, step) && Guarded(env, s, step) && Leaked(s, p)
    ensures Leaked(Do(env, s, step), p)
  {
    var t := Do(env, s, step);
    match step
    case Resolve(_, _, _, _) => AcquireIsCompleteCyclicSearch(s.pool, s.now);
    case Commit => assert Live(t.table) <= Live(s.table) + {s.hb.port};
    case FinishLeave =>
      ReleaseAllEffect(s.pool, WorkerPorts(s.hb.snap, s.hb.worker), s.now);
      assert p !in WorkerPorts(s.hb.snap, s.hb.worker) by {
        assert forall e :: e in s.hb.snap && e.key in s.table ==> e.port in Live(s.table);
      }
      assert Live(t.table) <= Live(s.table);
    case Prune(id) =>
      assert Live(t.table) <= Live(s.table);
    case ReleaseDue(id) =>
      assert !Owes(s.pruners, id, p);
      ReleaseAllEffect(s.pool, s.pruners[id].due, s.now);
    case _ => SnapshotAddsNoDebt(env, s, step);
  }

  /** A leaked port stays out of circulation for the rest of every guarded run. */
  lemma {:induction false} LeaksArePermanent(env: Env, s: State, steps: seq<Step>, p: u16)
    requires Inv(s) && Leaked(s, p)
    requires CanRun(env, s, steps) && GuardedRun(env, s, steps)
    ensures Leaked(After(env, s, steps), p)
    decreases |steps|
  {
    if steps != [] {
      StepKeepsInv(env, s, steps[0]);
      StepKeepsLeak(env, s, steps[0], p);
      LeaksArePermanent(env, Do(env, s, steps[0]), steps[1..], p);
    }
  }

  // ---------------------------------------------------------------- cooldown across the protocol

  lemma {:induction false} ClockGrows(env: Env, s: State, steps: seq<Step>)
    requires CanRun(env, s, steps)
    ensures s.now <= After(env, s, steps).now
    decreases |steps|
  {
    if steps != [] { ClockGrows(env, Do(env, s, steps[0]), steps[1..]); }
  }

  lemma StepKeepsCooling(env: Env, s: State, step: Step, c: Cooling)
    requires Inv(s) && Enabled(s, step) && c in s.pool.cooling && s.now < c.until
    ensures c in Do(env, s, step).pool.cooling
  {
    match step
    case FinishLeave => ReleaseAllEffect(s.pool, WorkerPorts(s.hb.snap, s.hb.worker), s.now);
    case ReleaseDue(id) => ReleaseAllEffect(s.pool, s.pruners[id].due, s.now);
    case _ =>
  }

  lemma {:induction false} RunKeepsCooling(env: Env, s: State, steps: seq<Step>, c: Cooling)
    requires Inv(s) && CanRun(env, s, steps) && GuardedRun(env, s, steps)
    requires c in s.pool.cooling && After(env, s, steps).now < c.until
    ensures c in After(env, s, steps).pool.cooling
    decreases |steps|
  {
    if steps != [] {
      ClockGrows(env, s, steps);
      StepKeepsInv(env, s, steps[0]);
      StepKeepsCooling(env, s, steps[0], c);
      RunKeepsCooling(env, Do(env, s, steps[0]), steps[1..], c);
    }
  }

  lemma OthersReleaseNothing(env: Env, s: State, step: Step)
    requires Sound(s.pool) && Enabled(s, step) && !step.FinishLeave? && !step.ReleaseDue?
    ensures s.pool.taken <= Do(env, s, step).pool.taken
  {
    if step.Resolve? { PoolAfterResolve(env, s, step); }
  }

  lemma ReleasedPortsCool(env: Env, s: State, step: Step, p: u16)
    requires Sound(s.pool) && Enabled(s, step) && p in s.pool.taken && p !in Do(env, s, step).pool.taken
    ensures Cooling(p, s.now + s.pool.cooldown) in Do(env, s, step).pool.cooling
  {
    match step
    case FinishLeave => ReleasedPortCools(s.pool, WorkerPorts(s.hb.snap, s.hb.worker), s.now, p);
    case ReleaseDue(id) => ReleasedPortCools(s.pool, s.pruners[id].due, s.now, p);
    case _ => OthersReleaseNothing(env, s, step);
  }

  /** A port that a step gives up is neither held nor live again before its cooldown has elapsed. */
  lemma ReleasedPortsRest(env: Env, s: State, step: Step, steps: seq<Step>, p: u16)
    requires Inv(s) && Enabled(s, step) && Guarded(env, s, step)
    requires p in s.pool.taken && p !in Do(env, s, step).pool.taken
    requires CanRun(env, Do(env, s, step), steps) && GuardedRun(env, Do(env, s, step), steps)
    requires After(env, Do(env, s, step), steps).now < s.now + s.pool.cooldown
    ensures var t := After(env, Do(env, s, step), steps); p !in t.pool.taken && p !in Live(t.table)
  {
    var c := Cooling(p, s.now + s.pool.cooldown);
    var u := Do(env, s, step);
    ReleasedPortsCool(env, s, step, p);
    StepKeepsInv(env, s, step);
    RunKeepsInv(env, u, steps);
    RunKeepsCooling(env, u, steps, c);
    RangeIsFixed(env, u, steps);
  }

  lemma {:induction false} RangeIsFixed(env: Env, s: State, steps: seq<Step>)
    requires Inv(s) && CanRun(env, s, steps)
    requires GuardedRun(env, s, steps)
    ensures After(env, s, steps).pool.start == s.pool.start && After(env, s, steps).pool.end == s.pool.end
    decreases |steps|
  {
    if steps != [] {
      var step := steps[0];
      StepKeepsInv(env, s, step);
      StepKeepsRange(env, s, step);
      RangeIsFixed(env, Do(env, s, step), steps[1..]);
    }
  }
}
