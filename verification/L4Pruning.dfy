/** The steps of the pruners keep the invariant of `L4Protocol`. */
module L4Pruning {
  import opened Common
  import opened PortPool
  import opened L4Table
  import opened L4Protocol
  import opened L4Invariant

  /** Pruning moves the ports of the removed rows from the live ports to the debts. */
  lemma PrunedDebts(env: Env, s: State, id: nat)
    requires Inv(s) && Enabled(s, Prune(id)) && Guarded(env, s, Prune(id))
    ensures var t := Do(env, s, Prune(id));
            && Live(t.table) !! Elements(t.pruners[id].due)
            && Live(s.table) == Live(t.table) + Elements(t.pruners[id].due)
            && Debts(t.pruners) == Debts(s.pruners) + Elements(t.pruners[id].due)
  {
    var t := Do(env, s, Prune(id));
    var stale := StaleKeys(s.table, env.staleTimeout, s.now);
    var due := t.pruners[id].due;
    assert due == DuePorts(s.pruners[id].snap, stale);
    forall p ensures p in Debts(t.pruners) <==> p in Debts(s.pruners) || p in due {
      if j :| Owes(s.pruners, j, p) { assert Owes(t.pruners, j, p); }
      if p in due { assert Owes(t.pruners, id, p); }
      if j :| Owes(t.pruners, j, p) { assert j == id || Owes(s.pruners, j, p); }
    }
    forall k | k in s.table ensures s.table[k].port in Live(t.table) <==> k !in stale {
      if k !in stale { assert t.table[k] == s.table[k]; }
    }
  }

  lemma PruneKeepsInv(env: Env, s: State, id: nat)
    requires Inv(s) && Enabled(s, Prune(id)) && Guarded(env, s, Prune(id))
    ensures Inv(Do(env, s, Prune(id)))
  {
    PrunedDebts(env, s, id);
    PruneKeepsDebts(env, s, id);
    PruneKeepsHeartbeat(env, s, id);
  }

  lemma PruneKeepsDebts(env: Env, s: State, id: nat)
    requires Inv(s) && Enabled(s, Prune(id)) && Guarded(env, s, Prune(id))
    ensures DebtsOk(Do(env, s, Prune(id)))
  {
    var t := Do(env, s, Prune(id));
    PrunedDebts(env, s, id);
    forall p | p in t.pruners[id].due ensures p in Live(s.table) && p !in Live(t.table) {
      assert p in Elements(t.pruners[id].due);
    }
    assert forall j, p :: Owes(t.pruners, j, p) && j != id ==> Owes(s.pruners, j, p);
    forall j, p | j != id && Owes(t.pruners, id, p) && Owes(t.pruners, j, p) ensures !s.pool.InRange(p) {
      assert p in Debts(s.pruners) && (InDebt(s, p) <==> s.pool.InRange(p));
    }
  }

  lemma PruneKeepsHeartbeat(env: Env, s: State, id: nat)
    requires Inv(s) && Enabled(s, Prune(id)) && Guarded(env, s, Prune(id))
    ensures HeartbeatOk(Do(env, s, Prune(id)))
  {
    var t := Do(env, s, Prune(id));
    PrunedDebts(env, s, id);
    forall k | k in s.table && k !in t.table ensures s.table[k].port in Debts(t.pruners) {
      assert s.table[k].port in Elements(t.pruners[id].due);
    }
  }

  lemma ReleaseDueKeepsInv(env: Env, s: State, id: nat)
    requires Inv(s) && Enabled(s, ReleaseDue(id))
    ensures Inv(Do(env, s, ReleaseDue(id)))
  {
    ReleaseAllEffect(s.pool, s.pruners[id].due, s.now);
    var t := Do(env, s, ReleaseDue(id));
    assert forall j, p :: Owes(t.pruners, j, p) <==> Owes(s.pruners, j, p) && j != id;
    forall p | p in Debts(t.pruners) ensures p in Debts(s.pruners) && (s.pool.InRange(p) ==> !Owes(s.pruners, id, p)) {
      var j :| Owes(t.pruners, j, p);
      assert Owes(s.pruners, j, p);
    }
    forall k | k in s.table && s.table[k].port in s.pool.taken ensures s.table[k].port in t.pool.taken {
      assert s.table[k].port in Live(s.table) && !Owes(s.pruners, id, s.table[k].port);
    }
    assert forall p :: t.pool.InRange(p) == s.pool.InRange(p);
    forall p | p in s.pool.taken && p !in t.pool.taken ensures Owes(s.pruners, id, p) && s.pool.InRange(p) { }
  }

  lemma SnapshotAddsNoDebt(env: Env, s: State, step: Step)
    requires Enabled(s, step) && !step.Prune? && !step.ReleaseDue?
    ensures var t := Do(env, s, step);
            && Debts(t.pruners) == Debts(s.pruners)
            && forall id, p :: Owes(t.pruners, id, p) == Owes(s.pruners, id, p)
  {
    var t := Do(env, s, step);
    assert forall id, p :: Owes(t.pruners, id, p) == Owes(s.pruners, id, p);
  }

  lemma TakeSnapshotKeepsInv(env: Env, s: State, step: Step)
    requires step.TakeSnapshot? && Inv(s) && Enabled(s, step)
    ensures Inv(Do(env, s, step))
  {
    SnapshotAddsNoDebt(env, s, step);
    var t := Do(env, s, step);
    assert forall j, p :: Owes(t.pruners, j, p) ==> Owes(s.pruners, j, p);
  }
}
