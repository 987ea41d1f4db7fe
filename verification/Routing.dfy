/** The HTTP routing table and the custom-domain bindings (edge-ingress/src/routing.rs). */
module Routing {
  import opened Common

  datatype RouteKey = RouteKey(tenant: string, app: string, deployment: Option<string>)

  datatype RouteEntry = RouteEntry(
    tenant: string, app: string, deployment: Option<string>, weight: nat,
    worker: string, port: u16, rps: Option<u32>, burst: Option<u32>, lastSeen: nat)
  {
    function Key(): RouteKey { RouteKey(tenant, app, deployment) }
  }

  datatype Binding = Binding(tenant: string, app: string, fqdn: string)

  datatype Domain = Domain(id: string, tenant: string, app: string, fqdn: string) {
    function Bind(): Binding { Binding(tenant, app, fqdn) }
  }

  type Routes = map<RouteKey, RouteEntry>
  type Bindings = map<string, Binding>

  /** What one upsert does to its key: a new row, or none. */
  datatype Write = Write(key: RouteKey, row: Option<RouteEntry>)

  function UpsertWrite(key: RouteKey, weight: nat, worker: string, port: u16, status: string, now: nat): (w: Write)
    ensures w.key == key && (w.row.Some? <==> status == "running" || status == "draining")
    ensures w.row.Some? ==> w.row.value.Key() == key && (status == "draining" ==> w.row.value.weight == 0)
  {
    if status != "running" && status != "draining" then Write(key, None)
    else
      var effective := if status == "draining" then 0 else weight;
      Write(key, Some(RouteEntry(key.tenant, key.app, key.deployment, effective, worker, port, None, None, now)))
  }

  function Applied(t: Routes, w: Write): Routes {
    if w.row == None then t - {w.key} else t[w.key := w.row.value]
  }

  function Lookup(t: Routes, k: RouteKey): Option<RouteEntry> { if k in t then Some(t[k]) else None }

  ghost predicate Keyed(t: Routes) { forall k :: k in t ==> t[k].Key() == k }

  function StaleKeys(t: Routes, olderThan: nat, now: nat): set<RouteKey> {
    set k | k in t && t[k].lastSeen < now - olderThan
  }

  function WorkerKeys(t: Routes, worker: string): set<RouteKey> {
    set k | k in t && t[k].worker == worker
  }

  /** The rows of a poll by name; a later row replaces an earlier one. */
  function RowsByFqdn(domains: seq<Domain>): map<string, Domain>
    decreases |domains|
  {
    if domains == [] then map[] else
    var last := domains[|domains| - 1];
    RowsByFqdn(domains[..|domains| - 1])[last.fqdn := last]
  }

  /** The names of a poll. */
  function FqdnsOf(domains: seq<Domain>): set<string> { set d | d in domains :: d.fqdn }

  lemma PolledNames(domains: seq<Domain>)
    ensures RowsByFqdn(domains).Keys == FqdnsOf(domains)
  {
    forall f | f in FqdnsOf(domains) ensures f in RowsByFqdn(domains) {
      var d :| d in domains && d.fqdn == f;
      var i :| 0 <= i < |domains| && domains[i] == d;
      RowsAreNamed(domains, i);
    }
    forall f | f in RowsByFqdn(domains) ensures f in FqdnsOf(domains) { var _ := LastRowWins(domains, f); }
  }

  /** Every row's name is polled. */
  lemma {:induction false} RowsAreNamed(domains: seq<Domain>, i: nat)
    requires i < |domains|
    ensures domains[i].fqdn in RowsByFqdn(domains)
    decreases |domains|
  {
    if i < |domains| - 1 { RowsAreNamed(domains[..|domains| - 1], i); }
  }

  /** Every polled name has the last row of that name. */
  lemma {:induction false} LastRowWins(domains: seq<Domain>, f: string) returns (i: nat)
    requires f in RowsByFqdn(domains)
    ensures i < |domains| && domains[i].fqdn == f && RowsByFqdn(domains)[f] == domains[i]
    ensures forall j :: i < j < |domains| ==> domains[j].fqdn != f
    decreases |domains|
  {
    i := |domains| - 1;
    if domains[i].fqdn != f { i := LastRowWins(domains[..i], f); }
  }

  /** The bindings after a poll: kept names keep their binding, new names take the polled one. */
  function Polled(current: Bindings, domains: seq<Domain>): Bindings {
    var rows := RowsByFqdn(domains);
    map f | f in rows :: if f in current then current[f] else rows[f].Bind()
  }

  class RoutingTable {
    var byApp: Routes
    var byFqdn: Bindings

    constructor ()
      ensures byApp == map[] && byFqdn == map[]
    {
      byApp, byFqdn := map[], map[];
    }

    method Upsert(tenant: string, app: string, deployment: Option<string>, weight: nat, worker: string, port: u16,
        status: string, now: nat)
      modifies this`byApp
      ensures byApp ==
          Applied(old(byApp), UpsertWrite(RouteKey(tenant, app, deployment), weight, worker, port, status, now))
    {
      var key := RouteKey(tenant, app, deployment);
      if status != "running" && status != "draining" {
        byApp := byApp - {key};
        return;
      }
      var effective := if status == "draining" then 0 else weight;
      byApp := byApp[key := RouteEntry(tenant, app, deployment, effective, worker, port, None, None, now)];
    }

    method RemoveKeys(gone: set<RouteKey>) returns (removed: seq<RouteKey>)
      modifies this`byApp
      ensures byApp == old(byApp) - gone
      ensures Elements(removed) == gone && NoDuplicates(removed)
    {
      removed := ListOf(gone);
      for i := 0 to |removed|
        invariant byApp == old(byApp) - Elements(removed[..i])
      {
        assert Elements(removed[..i + 1]) == Elements(removed[..i]) + {removed[i]};
        byApp := byApp - {removed[i]};
      }
      assert removed[..|removed|] == removed;
    }

    method RemoveStale(olderThan: nat, now: nat) returns (removed: seq<RouteKey>)
      modifies this`byApp
      ensures byApp == old(byApp) - StaleKeys(old(byApp), olderThan, now)
      ensures forall k :: k in byApp <==> k in old(byApp) && old(byApp)[k].lastSeen >= now - olderThan
      ensures forall k :: k in byApp ==> byApp[k] == old(byApp)[k]
      ensures Elements(removed) == StaleKeys(old(byApp), olderThan, now) && NoDuplicates(removed)
    {
      removed := RemoveKeys(StaleKeys(byApp, olderThan, now));
    }

    method RemoveWorker(worker: string) returns (removed: seq<RouteKey>)
      modifies this`byApp
      ensures byApp == old(byApp) - WorkerKeys(old(byApp), worker)
      ensures forall k :: k in byApp <==> k in old(byApp) && old(byApp)[k].worker != worker
      ensures forall k :: k in byApp ==> byApp[k] == old(byApp)[k]
      ensures Elements(removed) == WorkerKeys(old(byApp), worker) && NoDuplicates(removed)
    {
      removed := RemoveKeys(WorkerKeys(byApp, worker));
    }

    /** Applies one poll of the control plane's domain list and reports the names it added and removed. */
    method ApplyPollSnapshot(domains: seq<Domain>) returns (added: seq<string>, removed: seq<string>)
      modifies this`byFqdn
      ensures byFqdn == Polled(old(byFqdn), domains)
      ensures Elements(added) == FqdnsOf(domains) - old(byFqdn).Keys && NoDuplicates(added)
      ensures Elements(removed) == old(byFqdn).Keys - FqdnsOf(domains) && NoDuplicates(removed)
    {
      var rows := RowsByFqdn(domains);
      added := ListOf(rows.Keys - byFqdn.Keys);
      removed := ListOf(byFqdn.Keys - rows.Keys);
      assert forall f :: f in added <==> f in Elements(added);
      Unbind(removed);
      Bind(added, rows);
      assert byFqdn.Keys == rows.Keys;
      PolledNames(domains);
    }

    method Unbind(names: seq<string>)
      modifies this`byFqdn
      ensures byFqdn == old(byFqdn) - Elements(names)
    {
      for i := 0 to |names|
        invariant byFqdn == old(byFqdn) - Elements(names[..i])
      {
        assert Elements(names[..i + 1]) == Elements(names[..i]) + {names[i]};
        byFqdn := byFqdn - {names[i]};
      }
      assert names[..|names|] == names;
    }

    method Bind(names: seq<string>, rows: map<string, Domain>)
      modifies this`byFqdn
      ensures byFqdn == old(byFqdn) + map f | f in rows && f in names :: rows[f].Bind()
    {
      for i := 0 to |names|
        invariant byFqdn == old(byFqdn) + map f | f in rows && f in names[..i] :: rows[f].Bind()
      {
        assert names[..i + 1] == names[..i] + [names[i]];
        if names[i] in rows {
          byFqdn := byFqdn[names[i] := rows[names[i]].Bind()];
        }
      }
      assert names[..|names|] == names;
    }
  }

  // ---------------------------------------------------------------- sequences of polls

  function AfterPolls(polls: seq<seq<Domain>>): Bindings
    decreases |polls|
  {
    if polls == [] then map[] else Polled(AfterPolls(polls[..|polls| - 1]), polls[|polls| - 1])
  }

  /** The poll that most recently added `f`: the first of the unbroken stretch of polls that name it. */
  function AddedBy(polls: seq<seq<Domain>>, f: string): (i: nat)
    requires polls != [] && f in RowsByFqdn(polls[|polls| - 1])
    ensures i < |polls|
    ensures forall j :: i <= j < |polls| ==> f in RowsByFqdn(polls[j])
    ensures i > 0 ==> f !in RowsByFqdn(polls[i - 1])
    decreases |polls|
  {
    var last := |polls| - 1;
    if last > 0 && f in RowsByFqdn(polls[last - 1]) then AddedBy(polls[..last], f) else last
  }

  /** Over every sequence of polls the bound names are those of the last poll, and every binding is
      the one given by the poll that most recently added its name. */
  lemma {:induction false} BindingsFollowPolls(polls: seq<seq<Domain>>)
    requires polls != []
    ensures AfterPolls(polls).Keys == RowsByFqdn(polls[|polls| - 1]).Keys
    ensures forall f :: f in AfterPolls(polls) ==>
              var row := RowsByFqdn(polls[AddedBy(polls, f)])[f];
              AfterPolls(polls)[f] == Binding(row.tenant, row.app, row.fqdn)
    decreases |polls|
  {
    var last := |polls| - 1;
    if last > 0 {
      BindingsFollowPolls(polls[..last]);
    }
  }

  /** After a poll the bound names are the names of its rows. */
  lemma BoundNames(polls: seq<seq<Domain>>)
    requires polls != []
    ensures AfterPolls(polls).Keys == FqdnsOf(polls[|polls| - 1])
  {
    BindingsFollowPolls(polls);
    PolledNames(polls[|polls| - 1]);
  }
}
