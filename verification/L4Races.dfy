/** Runs from an idle ingress showing that every condition of the theorem of `L4Safety` is needed,
    whatever the staleness bound, the cooldown and the pool's range. */
module L4Races {
  import opened Common
  import opened PortPool
  import opened L4Table
  import opened L4Protocol
  import opened L4Invariant
  import opened L4Safety
  import opened L4Guards

  /** One more step, guarded or not. */
  lemma Onward(env: Env, init: State, steps: seq<Step>, s: State, step: Step) returns (longer: seq<Step>, t: State)
    requires Reached(env, init, steps, s) && Enabled(s, step)
    ensures longer == steps + [step] && t == Do(env, s, step) && Reached(env, init, longer, t)
  {
    RunExtends(env, init, steps, step);
    longer, t := steps + [step], Do(env, s, step);
  }

  /** An app registers on the first port; then its worker is silent for longer than the staleness bound, and a
      pruner takes its snapshot. */
  lemma StaleUnderSnapshot(env: Env, start: u16, end: u16, cooldown: nat)
    returns (steps: seq<Step>, s: State, row: Entry)
    requires 0 < start <= end
    ensures row == Entry(API, start, "10.0.0.1", 8082, 0)
    ensures s ==
        Registered(start, end, cooldown, row).(now := env.staleTimeout + 1,
        pruners := map[0 := Snapped([row], env.staleTimeout + 1)])
    ensures StaleKeys(s.table, env.staleTimeout, s.now) == {API} && DuePorts([row], {API}) == [start]
    ensures Reached(env, Initial(start, end, cooldown), steps, s)
        && GuardedRun(env, Initial(start, end, cooldown), steps)
  {
    var init, g := Initial(start, end, cooldown), env.staleTimeout;
    steps, s, row := Register(env, g, start, end, cooldown);
    SingleRelease(row, {API}, s.pool, s.now);
    steps, s := Go(env, g, init, steps, s, Wait(g + 1));
    steps, s := Go(env, g, init, steps, s, TakeSnapshot(0, [row]));
    WithinIsGuarded(env, g, init, steps);
  }

  /** A guarded run to a state in which the row a heartbeat has looked up is gone. */
  lemma PrunedInFlight(env: Env, start: u16, end: u16, cooldown: nat) returns (steps: seq<Step>, s: State)
    requires 0 < start <= end
    ensures Reached(env, Initial(start, end, cooldown), steps, s) && Inv(s)
    ensures s.hb == Holding("10.0.0.1", API, start, Reused, 8082, "running") && s.table == map[] && !ReuseIsCurrent(s)
    ensures s.pool == Registered(start, end, cooldown, Entry(API, start, "10.0.0.1", 8082, 0)).pool
        && s.pruners == map[0 := Owing([start])]
  {
    var init, row := Initial(start, end, cooldown), Entry(API, start, "10.0.0.1", 8082, 0);
    steps, s, row := StaleUnderSnapshot(env, start, end, cooldown);
    RunKeepsInv(env, init, steps);
    var t := s;
    steps, s := Onward(env, init, steps, s, Begin("10.0.0.1"));
    steps, s := Onward(env, init, steps, s, Resolve(API, 8082, "running", None));
    steps, s := Onward(env, init, steps, s, Prune(0));
    assert s.table == map[];
    LookupUnderPrune(env, t);
  }

  lemma LookupUnderPrune(env: Env, s: State)
    requires Inv(s) && s.hb.Quiet? && API in s.table && HasRow(s.table, API, "10.0.0.1")
    requires Enabled(s, Prune(0)) && s.now <= s.pruners[0].at + env.staleTimeout
    ensures var t := Do(env, Do(env, s, Begin("10.0.0.1")), Resolve(API, 8082, "running", None));
        Inv(Do(env, t, Prune(0)))
  {
    var t := Do(env, s, Begin("10.0.0.1"));
    StepKeepsInv(env, s, Begin("10.0.0.1"));
    StepKeepsInv(env, t, Resolve(API, 8082, "running", None));
    StepKeepsInv(env, Do(env, t, Resolve(API, 8082, "running", None)), Prune(0));
  }

  /** A removal between lookup and upsert: the row written back loses its port to the pruner, and after the
      cooldown another app is given the same public port. */
  lemma PruneBetweenLookupAndUpsert(env: Env, start: u16, end: u16, cooldown: nat) returns (steps: seq<Step>, s: State)
    requires 0 < start <= end
    ensures Reached(env, Initial(start, end, cooldown), steps, s) && !DistinctLivePorts(s.table)
  {
    var init := Initial(start, end, cooldown);
    steps, s := PrunedInFlight(env, start, end, cooldown);
    SingleRelease(Entry(API, start, "10.0.0.1", 8082, 0), {API}, s.pool, s.now);
    steps, s := Onward(env, init, steps, s, Commit);
    steps, s := Onward(env, init, steps, s, End);
    steps, s := Onward(env, init, steps, s, ReleaseDue(0));
    assert LostPort(s, API);
    steps, s := Onward(env, init, steps, s, Wait(cooldown));
    steps, s := Onward(env, init, steps, s, Begin("10.0.0.2"));
    var walk := WalkTo(env, s, DB, start);
    RunsConcatenate(env, init, steps, walk);
    steps := steps + walk;
    s := After(env, init, steps);
    assert s.table[API].port == s.table[DB].port;
  }

  /** A removal between a departing worker's snapshot and its own removal: the port is released twice, the second
      time when an app already holds it. */
  lemma PruneDuringDeparture(env: Env, start: u16, end: u16, cooldown: nat)
    returns (steps: seq<Step>, s: State, key: AppKey)
    requires 0 < start <= end
    ensures Reached(env, Initial(start, end, cooldown), steps, s) && LostPort(s, key)
  {
    var init, row := Initial(start, end, cooldown), Entry(API, start, "10.0.0.1", 8082, 0);
    steps, s, row := StaleUnderSnapshot(env, start, end, cooldown);
    RunKeepsInv(env, init, steps);
    StepKeepsInv(env, s, BeginLeave("10.0.0.1", [row]));
    steps, s := Onward(env, init, steps, s, BeginLeave("10.0.0.1", [row]));
    StepKeepsInv(env, s, Prune(0));
    steps, s := Onward(env, init, steps, s, Prune(0));
    assert row in s.hb.snap && API !in s.table && !LeaveIsCurrent(s);
    var more;
    key, more := StaleLeaveReleasesLivePort(env, s);
    steps, s := Onward(env, init, steps, s, FinishLeave);
    RunsConcatenate(env, init, steps, more);
    steps := steps + more;
    s := After(env, init, steps);
  }

  /** A cached port inside the pool's range is not marked as held; here it is another app's live port. */
  lemma CachedPortInsideRange(env: Env, start: u16, end: u16, cooldown: nat) returns (steps: seq<Step>, s: State)
    requires 0 < start <= end
    ensures Reached(env, Initial(start, end, cooldown), steps, s) && !DistinctLivePorts(s.table)
  {
    var init, row := Initial(start, end, cooldown), Entry(API, start, "10.0.0.1", 8082, 0);
    steps, s, row := Register(env, env.staleTimeout, start, end, cooldown);
    steps, s := Onward(env, init, steps, s, Begin("10.0.0.1"));
    steps, s := Onward(env, init, steps, s, Resolve(DB, 8082, "running", Some(start)));
    steps, s := Onward(env, init, steps, s, Commit);
    assert s.table[API].port == s.table[DB].port;
  }
}
