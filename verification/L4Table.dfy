/** The raw-TCP routing table (edge-ingress/src/l4.rs, `L4RoutingTable`). */
module L4Table {
  import opened Common

  datatype AppKey = AppKey(tenant: string, app: string)

  datatype Entry = Entry(key: AppKey, port: u16, worker: string, upstream: u16, lastSeen: nat)

  type Table = map<AppKey, Entry>

  predicate Routable(status: string) { status == "running" || status == "draining" }

  function Upserted(t: Table, key: AppKey, port: u16, worker: string, upstream: u16, status: string, now: nat): Table {
    if Routable(status) then t[key := Entry(key, port, worker, upstream, now)] else t - {key}
  }

  predicate Stale(e: Entry, olderThan: nat, now: nat) { e.lastSeen < now - olderThan }

  function StaleKeys(t: Table, olderThan: nat, now: nat): set<AppKey> {
    set k | k in t && Stale(t[k], olderThan, now)
  }

  function WorkerKeys(t: Table, worker: string): set<AppKey> {
    set k | k in t && t[k].worker == worker
  }

  /** `snap` lists exactly the rows of `t`, in some order. */
  ghost predicate IsSnapshot(t: Table, snap: seq<Entry>) {
    && (forall k :: k in t ==> t[k] in snap)
    && (forall e :: e in snap ==> e.key in t && t[e.key] == e)
  }

  /** Every row is filed under its own key. */
  ghost predicate Keyed(t: Table) { forall k :: k in t ==> t[k].key == k }

  class L4RoutingTable {
    var byApp: Table

    constructor ()
      ensures byApp == map[]
    {
      byApp := map[];
    }

    method Lookup(key: AppKey) returns (r: Option<Entry>)
      ensures r == if key in byApp then Some(byApp[key]) else None
    {
      if key in byApp { r := Some(byApp[key]); } else { r := None; }
    }

    method Upsert(key: AppKey, port: u16, worker: string, upstream: u16, status: string, now: nat)
      modifies this
      ensures byApp == Upserted(old(byApp), key, port, worker, upstream, status, now)
    {
      if status != "running" && status != "draining" {
        byApp := byApp - {key};
        return;
      }
      byApp := byApp[key := Entry(key, port, worker, upstream, now)];
    }

    /** Removes the keys in `gone` one by one and reports each once. */
    method RemoveKeys(gone: set<AppKey>) returns (removed: seq<AppKey>)
      modifies this
      ensures byApp == old(byApp) - gone
      ensures Elements(removed) == gone && NoDuplicates(removed)
    {
      removed := ListOf(gone);
      for i := 0 to |removed|
        invariant byApp == old(byApp) - Elements(removed[..i])
      {
        assert Elements(removed[..i + 1]) == Elements(removed[..i]) + {removed[i]};
        byApp := byApp - {removed[i]};
      }
      assert removed[..|removed|] == removed;
    }

    method RemoveStale(olderThan: nat, now: nat) returns (removed: seq<AppKey>)
      modifies this
      ensures byApp == old(byApp) - StaleKeys(old(byApp), olderThan, now)
      ensures forall k :: k in byApp <==> k in old(byApp) && old(byApp)[k].lastSeen >= now - olderThan
      ensures forall k :: k in byApp ==> byApp[k] == old(byApp)[k]
      ensures Elements(removed) == StaleKeys(old(byApp), olderThan, now) && NoDuplicates(removed)
    {
      removed := RemoveKeys(StaleKeys(byApp, olderThan, now));
    }

    method RemoveWorker(worker: string) returns (removed: seq<AppKey>)
      modifies this
      ensures byApp == old(byApp) - WorkerKeys(old(byApp), worker)
      ensures forall k :: k in byApp <==> k in old(byApp) && old(byApp)[k].worker != worker
      ensures forall k :: k in byApp ==> byApp[k] == old(byApp)[k]
      ensures Elements(removed) == WorkerKeys(old(byApp), worker) && NoDuplicates(removed)
    {
      removed := RemoveKeys(WorkerKeys(byApp, worker));
    }

    method Snapshot() returns (snap: seq<Entry>)
      requires Keyed(byApp)
      ensures IsSnapshot(byApp, snap) && NoDuplicates(snap)
    {
      var keys := ListOf(byApp.Keys);
      var t := byApp;
      snap := seq(|keys|, i requires 0 <= i < |keys| => assert keys[i] in Elements(keys); t[keys[i]]);
      forall k | k in byApp ensures byApp[k] in snap {
        assert k in Elements(keys);
        var i :| 0 <= i < |keys| && keys[i] == k;
        assert snap[i] == byApp[k];
      }
      forall e | e in snap ensures e.key in byApp && byApp[e.key] == e {
        var i :| 0 <= i < |snap| && snap[i] == e;
        assert keys[i] in Elements(keys);
      }
      forall i, j | 0 <= i < j < |snap| ensures snap[i] != snap[j] {
        assert keys[i] in Elements(keys) && keys[j] in Elements(keys);
      }
    }
  }
}
