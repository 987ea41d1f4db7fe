/** Safety over every interleaving of heartbeats and pruners, and that its conditions are exact. */
module L4Safety {
  import opened Common
  import opened PortPool
  import opened L4Table
  import opened L4Protocol
  import opened L4Invariant
  import opened L4Pruning

  lemma StepKeepsInv(env: Env, s: State, step: Step)
    requires Inv(s) && Enabled(s, step) && Guarded(env, s, step)
    ensures Inv(Do(env, s, step))
  {
    match step
    case Resolve(_, _, _, _) => ResolveKeepsInv(env, s, step);
    case Commit => CommitKeepsInv(env, s);
    case FinishLeave => FinishLeaveKeepsInv(env, s);
    case Prune(id) => PruneKeepsInv(env, s, id);
    case ReleaseDue(id) => ReleaseDueKeepsInv(env, s, id);
    case TakeSnapshot(_, _) => TakeSnapshotKeepsInv(env, s, step);
    case _ => ObservingKeepsInv(env, s, step);
  }

  lemma {:induction false} RunKeepsInv(env: Env, s: State, steps: seq<Step>)
    requires Inv(s) && CanRun(env, s, steps) && GuardedRun(env, s, steps)
    ensures Inv(After(env, s, steps))
    decreases |steps|
  {
    if steps != [] {
      StepKeepsInv(env, s, steps[0]);
      RunKeepsInv(env, Do(env, s, steps[0]), steps[1..]);
    }
  }

  lemma StepKeepsRange(env: Env, s: State, step: Step)
    requires Sound(s.pool) && Enabled(s, step)
    ensures var t := Do(env, s, step);
        t.pool.start == s.pool.start && t.pool.end == s.pool.end && t.pool.cooldown == s.pool.cooldown
  {
    if step.FinishLeave? { ReleaseAllEffect(s.pool, WorkerPorts(s.hb.snap, s.hb.worker), s.now); }
    if step.ReleaseDue? { ReleaseAllEffect(s.pool, s.pruners[step.id].due, s.now); }
  }

  lemma ReleasedWereOwed(env: Env, s: State, id: nat)
    requires Inv(s) && Enabled(s, ReleaseDue(id))
    ensures forall p :: p in s.pool.taken && p !in Do(env, s, ReleaseDue(id)).pool.taken ==> p !in Live(s.table)
  {
    ReleaseAllEffect(s.pool, s.pruners[id].due, s.now);
    forall p | p in s.pool.taken && p in s.pruners[id].due ensures p !in Live(s.table) {
      assert Owes(s.pruners, id, p) && InDebt(s, p);
    }
  }

  /** Safety over every interleaving. In every state of every guarded run live rows have pairwise
      distinct public ports and hold their pool ports, no live port is cooling, and the next step,
      whatever it is, releases no port that is live after it. */
  lemma LivePortsAreSafe(env: Env, start: u16, end: u16, cooldown: nat, steps: seq<Step>, next: Step)
    requires 0 < start <= end
    requires CanRun(env, Initial(start, end, cooldown), steps) && GuardedRun(env, Initial(start, end, cooldown), steps)
    requires Enabled(After(env, Initial(start, end, cooldown), steps), next)
    requires Guarded(env, After(env, Initial(start, end, cooldown), steps), next)
    ensures var s := After(env, Initial(start, end, cooldown), steps);
            var t := Do(env, s, next);
            && DistinctLivePorts(s.table)
            && (forall k :: k in s.table && s.pool.InRange(s.table[k].port) ==> s.table[k].port in s.pool.taken)
            && (forall k, c :: k in s.table && c in s.pool.cooling ==> c.port != s.table[k].port)
            && (forall p :: p in s.pool.taken && p !in t.pool.taken ==> p !in Live(t.table))
            && (next.ReleaseDue? ==> forall p :: p in s.pool.taken && p !in t.pool.taken ==> p !in Live(s.table))
  {
    var init := Initial(start, end, cooldown);
    RunKeepsInv(env, init, steps);
    var s := After(env, init, steps);
    StepKeepsInv(env, s, next);
    StepKeepsRange(env, s, next);
    var t := Do(env, s, next);
    forall p | p in s.pool.taken && p !in t.pool.taken ensures p !in Live(t.table) { assert t.pool.InRange(p); }
    if next.ReleaseDue? {
      ReleasedWereOwed(env, s, next.id);
    }
  }

  // ---------------------------------------------------------------- the guard is exact

  /** Writing back a looked-up port keeps the invariant exactly when the row is still there. */
  lemma CommitIsSafeIff(env: Env, s: State)
    requires Inv(s) && Enabled(s, Commit)
    ensures Inv(Do(env, s, Commit)) <==> ReuseIsCurrent(s)
  {
    if ReuseIsCurrent(s) {
      CommitKeepsInv(env, s);
    } else {
      var t := Do(env, s, Commit);
      var id :| Owes(s.pruners, id, s.hb.port);
      assert Owes(t.pruners, id, s.hb.port) && t.table[s.hb.key].port in Live(t.table);
    }
  }

  /** Finishing a worker's departure keeps the invariant exactly when its rows are still there. */
  lemma FinishLeaveIsSafeIff(env: Env, s: State)
    requires Inv(s) && Enabled(s, FinishLeave)
    ensures Inv(Do(env, s, FinishLeave)) <==> LeaveIsCurrent(s)
  {
    if LeaveIsCurrent(s) {
      FinishLeaveKeepsInv(env, s);
    } else {
      var e :| e in s.hb.snap && e.worker == s.hb.worker && s.pool.InRange(e.port) && e.key !in s.table;
      var id :| Owes(s.pruners, id, e.port);
      ReleaseAllEffect(s.pool, WorkerPorts(s.hb.snap, s.hb.worker), s.now);
      var t := Do(env, s, FinishLeave);
      assert Owes(t.pruners, id, e.port) && e.port !in t.pool.taken;
    }
  }

  /** From every invariant state in which a pruner removed the row between lookup and upsert,
      finishing the message and letting that pruner go on releases the port of a live row. */
  lemma StaleCommitReleasesLivePort(env: Env, s: State) returns (id: nat)
    requires Inv(s) && Enabled(s, Commit) && !ReuseIsCurrent(s)
    ensures CanRun(env, s, [Commit, End, ReleaseDue(id)])
    ensures var t := After(env, s, [Commit, End, ReleaseDue(id)]);
            s.hb.key in t.table && t.table[s.hb.key].port == s.hb.port && s.hb.port !in t.pool.taken
  {
    id :| Owes(s.pruners, id, s.hb.port);
    var t := Do(env, s, Commit);
    var u := Do(env, t, End);
    var steps := [Commit, End, ReleaseDue(id)];
    assert steps[1..] == [End, ReleaseDue(id)] && steps[1..][1..] == [ReleaseDue(id)] && [ReleaseDue(id)][1..] == [];
    assert CanRun(env, u, [ReleaseDue(id)]) && CanRun(env, t, steps[1..]);
    ReleaseAllEffect(u.pool, u.pruners[id].due, u.now);
    assert After(env, u, [ReleaseDue(id)]) == Do(env, u, ReleaseDue(id));
    assert After(env, t, steps[1..]) == Do(env, u, ReleaseDue(id));
  }
}
