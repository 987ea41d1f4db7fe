/** The sidecar's sliding window over per-replica request rates and the cap each replica derives
    from it (edge-ingress-sidecar/src/aggregate.rs). */
module Aggregation {
  import opened Common

  /** The name a replica publishes under; names are only ever compared. */
  datatype ReplicaId = ReplicaId(name: string)

  datatype DeltaMsg = DeltaMsg(replica: ReplicaId, rps: u32)

  datatype Entry = Entry(replica: ReplicaId, rps: u32, ts: nat)

  datatype Snapshot = Snapshot(configuredCap: u32, platformTotal: u64, thisReplicaRps: u32, replicasSeen: u32)

  type Latest = map<ReplicaId, Entry>

  const U32_MAX: u32 := 0xFFFF_FFFF

  // ---------------------------------------------------------------- the naive scan of the whole history

  /** The last message of every replica. */
  function MapOf(h: seq<Entry>): Latest
    decreases |h|
  {
    if h == [] then map[] else
    var last := h[|h| - 1];
    MapOf(h[..|h| - 1])[last.replica := last]
  }

  function Pruned(m: Latest, cutoff: int): Latest { map r | r in m && m[r].ts >= cutoff :: m[r] }

  /** The last message of every replica, kept when it is not older than `cutoff`. */
  function Kept(h: seq<Entry>, cutoff: int): Latest { Pruned(MapOf(h), cutoff) }

  /** Sum of the rates of a window, in any order. */
  ghost function Sum(m: Latest): nat {
    if m == map[] then 0 else
    var k :| k in m;
    m[k].rps as nat + Sum(m - {k})
  }

  function SumSeq(rates: seq<u32>): nat
    decreases |rates|
  {
    if rates == [] then 0 else SumSeq(rates[..|rates| - 1]) + rates[|rates| - 1] as nat
  }

  /** Total, own rate and replica count of a window, in 64- and 32-bit arithmetic. */
  ghost function Summary(m: Latest, cap: u32, self: ReplicaId): Snapshot {
    Snapshot(cap, (Sum(m) % 0x1_0000_0000_0000_0000) as u64, if self in m then m[self].rps else 0,
        (|m| % 0x1_0000_0000) as u32)
  }

  lemma {:induction false} MapOfAt(h: seq<Entry>, i: nat)
    requires i < |h| && forall j :: i < j < |h| ==> h[j].replica != h[i].replica
    ensures h[i].replica in MapOf(h) && MapOf(h)[h[i].replica] == h[i]
    decreases |h|
  {
    if i < |h| - 1 { MapOfAt(h[..|h| - 1], i); }
  }

  lemma {:induction false} MapOfFrom(h: seq<Entry>, r: ReplicaId) returns (i: nat)
    requires r in MapOf(h)
    ensures i < |h| && h[i] == MapOf(h)[r] && h[i].replica == r
    decreases |h|
  {
    i := |h| - 1;
    if h[i].replica != r { i := MapOfFrom(h[..i], r); }
  }

  lemma MapOfSnoc(h: seq<Entry>, entry: Entry)
    ensures MapOf(h + [entry]) == MapOf(h)[entry.replica := entry]
  {
    assert (h + [entry])[..|h|] == h;
  }

  lemma {:induction false} SumSplit(m: Latest, k: ReplicaId)
    requires k in m
    ensures Sum(m) == m[k].rps as nat + Sum(m - {k})
    decreases |m|
  {
    var l :| l in m && Sum(m) == m[l].rps as nat + Sum(m - {l});
    if l != k {
      SumSplit(m - {l}, k);
      SumSplit(m - {k}, l);
      assert m - {l} - {k} == m - {k} - {l};
    }
  }

  function Rates(m: Latest, keys: seq<ReplicaId>): seq<u32>
    requires Elements(keys) <= m.Keys
  {
    seq(|keys|, i requires 0 <= i < |keys| => assert keys[i] in Elements(keys); m[keys[i]].rps)
  }

  lemma RatesOfRest(m: Latest, keys: seq<ReplicaId>)
    requires keys != [] && Elements(keys) <= m.Keys && NoDuplicates(keys)
    ensures var n := |keys| - 1;
            && Elements(keys[..n]) <= (m - {keys[n]}).Keys && keys[n] in m
            && Rates(m, keys) == Rates(m - {keys[n]}, keys[..n]) + [m[keys[n]].rps]
  {
    var n := |keys| - 1;
    assert keys[n] in Elements(keys);
    forall k | k in Elements(keys[..n]) ensures k in (m - {keys[n]}).Keys { assert k in Elements(keys); }
  }

  lemma {:induction false} SumOfListing(m: Latest, keys: seq<ReplicaId>)
    requires Elements(keys) == m.Keys && NoDuplicates(keys)
    ensures Sum(m) == SumSeq(Rates(m, keys)) && |keys| == |m|
    decreases |keys|
  {
    if keys == [] {
      assert m == map[];
    } else {
      var k, rest := keys[|keys| - 1], keys[..|keys| - 1];
      SumOfListing(m - {k}, rest);
      SumSplit(m, k);
      RatesOfRest(m, keys);
    }
  }

  lemma {:induction false} SumSeqBound(rates: seq<u32>)
    ensures SumSeq(rates) <= |rates| * 0xFFFF_FFFF
    decreases |rates|
  {
    if rates != [] { SumSeqBound(rates[..|rates| - 1]); }
  }

  /** The 64-bit total is exact for every fleet whose size fits the 32-bit count. */
  lemma TotalFits(m: Latest, keys: seq<ReplicaId>)
    requires Elements(keys) == m.Keys && NoDuplicates(keys) && |m| < 0x1_0000_0000
    ensures Sum(m) < 0x1_0000_0000_0000_0000
  {
    SumOfListing(m, keys);
    SumSeqBound(Rates(m, keys));
  }

  // ---------------------------------------------------------------- the window

  function Cutoff(now: nat, window: nat, fallback: nat): int {
    if now >= window then now - window else fallback
  }

  ghost predicate DistinctReplicas(order: seq<Entry>) {
    forall i, j :: 0 <= i < j < |order| ==> order[i].replica != order[j].replica
  }

  ghost predicate SortedByTime(order: seq<Entry>) {
    forall i, j :: 0 <= i < j < |order| ==> order[i].ts <= order[j].ts
  }

  /** The deque holds exactly one entry per map entry, sorted by time. */
  ghost predicate Agree(latest: Latest, order: seq<Entry>) {
    latest == MapOf(order) && DistinctReplicas(order) && SortedByTime(order)
  }

  lemma NotYetIn(order: seq<Entry>)
    requires order != [] && DistinctReplicas(order)
    ensures order[|order| - 1].replica !in MapOf(order[..|order| - 1])
  {
    var n := |order| - 1;
    if order[n].replica in MapOf(order[..n]) { var i := MapOfFrom(order[..n], order[n].replica); }
  }

  lemma {:induction false} MapOfSize(order: seq<Entry>)
    requires DistinctReplicas(order)
    ensures |MapOf(order)| == |order|
    decreases |order|
  {
    if order != [] {
      var n := |order| - 1;
      MapOfSize(order[..n]);
      var m := MapOf(order[..n]);
      NotYetIn(order);
      assert MapOf(order).Keys == m.Keys + {order[n].replica};
    }
  }

  function Without(order: seq<Entry>, pos: nat): seq<Entry>
    requires pos < |order|
  {
    order[..pos] + order[pos + 1..]
  }

  lemma WithoutLast(order: seq<Entry>, pos: nat)
    requires pos < |order| - 1
    ensures var n := |order| - 1; Without(order, pos) == Without(order[..n], pos) + [order[n]]
  {
  }

  lemma UpdateElsewhere(m: Latest, r: ReplicaId, e: Entry)
    requires r != e.replica
    ensures (m - {r})[e.replica := e] == m[e.replica := e] - {r}
  {
  }

  lemma {:induction false} RemoveAgrees(order: seq<Entry>, pos: nat)
    requires DistinctReplicas(order) && pos < |order|
    ensures MapOf(Without(order, pos)) == MapOf(order) - {order[pos].replica}
    decreases |order|
  {
    var n := |order| - 1;
    var r, last := order[pos].replica, order[n];
    assert order == order[..n] + [last];
    MapOfSnoc(order[..n], last);
    if pos == n {
      assert Without(order, pos) == order[..n];
      NotYetIn(order);
    } else {
      calc {
        MapOf(Without(order, pos));
        { WithoutLast(order, pos); MapOfSnoc(Without(order[..n], pos), last); }
        MapOf(Without(order[..n], pos))[last.replica := last];
        { RemoveAgrees(order[..n], pos); }
        (MapOf(order[..n]) - {r})[last.replica := last];
        { UpdateElsewhere(MapOf(order[..n]), r, last); }
        MapOf(order) - {r};
      }
    }
  }

  lemma NewReplicaLast(order: seq<Entry>, entry: Entry)
    requires DistinctReplicas(order) && entry.replica !in MapOf(order)
    ensures DistinctReplicas(order + [entry])
  {
    forall i | 0 <= i < |order| ensures order[i].replica != entry.replica { MapOfAt(order, i); }
  }

  lemma TailAgrees(latest: Latest, order: seq<Entry>)
    requires Agree(latest, order) && order != []
    ensures Agree(latest - {order[0].replica}, order[1..])
  {
    RemoveAgrees(order, 0);
    assert Without(order, 0) == order[1..];
    TailKeepsOrder(order);
  }

  lemma TailKeepsOrder(order: seq<Entry>)
    requires DistinctReplicas(order) && SortedByTime(order) && order != []
    ensures DistinctReplicas(order[1..]) && SortedByTime(order[1..])
  {
    assert forall i :: 0 <= i < |order| - 1 ==> order[1..][i] == order[i + 1];
  }

  lemma AppendAgrees(latest: Latest, order: seq<Entry>, entry: Entry)
    requires Agree(latest, order) && entry.replica !in latest
    requires forall i :: 0 <= i < |order| ==> order[i].ts <= entry.ts
    ensures Agree(latest[entry.replica := entry], order + [entry])
  {
    NewReplicaLast(order, entry);
    MapOfSnoc(order, entry);
  }

  lemma LatestIsFiled(order: seq<Entry>, r: ReplicaId)
    requires r in MapOf(order)
    ensures MapOf(order)[r].replica == r
  {
    var _ := MapOfFrom(order, r);
  }

  lemma InsertAgrees(latest: Latest, order: seq<Entry>, entry: Entry)
    requires Agree(latest - {entry.replica}, order) && forall i :: 0 <= i < |order| ==> order[i].ts <= entry.ts
    ensures Agree(latest[entry.replica := entry], order + [entry])
    ensures forall i :: 0 <= i < |order| + 1 ==> (order + [entry])[i].ts <= entry.ts
  {
    var others := latest - {entry.replica};
    AppendAgrees(others, order, entry);
    assert others[entry.replica := entry] == latest[entry.replica := entry];
  }

  /** Looking at the front of the deque is as good as looking at every entry. */
  lemma NothingStale(latest: Latest, order: seq<Entry>, cutoff: int)
    requires Agree(latest, order) && (order == [] || order[0].ts >= cutoff)
    ensures Pruned(latest, cutoff) == latest
  {
    forall r | r in latest ensures latest[r].ts >= cutoff {
      var i := MapOfFrom(order, r);
      assert i == 0 || order[0].ts <= order[i].ts;
    }
  }

  /** The first deque position holding the replica and time of `existing`, known to be held at `at`. */
  method Position(order: seq<Entry>, existing: Entry, ghost at: nat) returns (pos: nat)
    requires at < |order| && order[at] == existing
    ensures pos < |order| && order[pos].replica == existing.replica && order[pos].ts == existing.ts
  {
    pos := 0;
    while order[pos].replica != existing.replica || order[pos].ts != existing.ts
      invariant pos <= at
      decreases at - pos
    {
      pos := pos + 1;
    }
  }

  class WindowState {
    var latest: Latest
    var order: seq<Entry>
    const window: nat
    /** The time of the last message. */
    ghost var clock: nat

    ghost predicate Valid()
      reads this
    {
      Agree(latest, order) && forall i :: 0 <= i < |order| ==> order[i].ts <= clock
    }

    constructor (window: nat)
      ensures Valid() && latest == map[] && clock == 0 && this.window == window
    {
      this.window := window;
      latest, order, clock := map[], [], 0;
    }

    method Insert(msg: DeltaMsg, now: nat)
      requires Valid() && clock <= now
      modifies this
      ensures Valid() && clock == now
      ensures latest == old(latest)[msg.replica := Entry(msg.replica, msg.rps, now)]
    {
      var entry := Entry(msg.replica, msg.rps, now);
      clock := now;
      if entry.replica in latest {
        var existing := latest[entry.replica];
        LatestIsFiled(order, entry.replica);
        DropFromOrder(existing);
      } else {
        assert latest - {entry.replica} == latest;
      }
      InsertAgrees(latest, order, entry);
      latest := latest[entry.replica := entry];
      order := order + [entry];
    }

    /** Takes a replica's superseded entry out of the deque. */
    method DropFromOrder(existing: Entry)
      requires Valid() && existing.replica in latest && latest[existing.replica] == existing
      modifies this`order
      ensures Agree(latest - {existing.replica}, order) && forall i :: 0 <= i < |order| ==> order[i].ts <= clock
    {
      ghost var at := MapOfFrom(order, existing.replica);
      var pos := Position(order, existing, at);
      RemoveAgrees(order, pos);
      order := order[..pos] + order[pos + 1..];
    }

    method Prune(now: nat, fallback: nat)
      requires Valid()
      modifies this`latest, this`order
      ensures Valid()
      ensures latest == Pruned(old(latest), Cutoff(now, window, fallback))
    {
      var cutoff := if now >= window then now - window else fallback;
      while order != [] && order[0].ts < cutoff
        invariant Valid()
        invariant Pruned(latest, cutoff) == Pruned(old(latest), cutoff)
        decreases |order|
      {
        MapOfAt(order, 0);
        TailAgrees(latest, order);
        var removed := order[0];
        order := order[1..];
        if removed.replica in latest && latest[removed.replica].ts == removed.ts {
          latest := latest - {removed.replica};
        }
      }
      NothingStale(latest, order, cutoff);
    }
  }

  // ---------------------------------------------------------------- ticks

  function Stamped(msgs: seq<DeltaMsg>, now: nat): seq<Entry> {
    seq(|msgs|, i requires 0 <= i < |msgs| => Entry(msgs[i].replica, msgs[i].rps, now))
  }

  function Inserted(m: Latest, es: seq<Entry>): Latest
    decreases |es|
  {
    if es == [] then m else
    var last := es[|es| - 1];
    Inserted(m, es[..|es| - 1])[last.replica := last]
  }

  /** The rates of the window added up in the order of `keys`, in 64-bit arithmetic. */
  method Total(m: Latest, keys: seq<ReplicaId>) returns (total: u64)
    requires Elements(keys) == m.Keys && NoDuplicates(keys)
    ensures total as int == Sum(m) % 0x1_0000_0000_0000_0000
  {
    ghost var rates := Rates(m, keys);
    total := 0;
    for i := 0 to |keys|
      invariant total as int == SumSeq(rates[..i]) % 0x1_0000_0000_0000_0000
    {
      assert keys[i] in Elements(keys) && rates[..i + 1][..i] == rates[..i];
      total := ((total as int + m[keys[i]].rps as int) % 0x1_0000_0000_0000_0000) as u64;
    }
    assert rates[..|keys|] == rates;
    SumOfListing(m, keys);
  }

  class Aggregator {
    const state: WindowState
    const thisReplica: ReplicaId
    const configuredCap: u32

    constructor (thisReplica: ReplicaId, configuredCap: u32, window: nat)
      ensures fresh(state) && state.Valid() && state.latest == map[] && state.clock == 0
      ensures state.window == window && this.thisReplica == thisReplica && this.configuredCap == configuredCap
    {
      state := new WindowState(window);
      this.thisReplica, this.configuredCap := thisReplica, configuredCap;
    }

    method SnapshotAt() returns (snap: Snapshot)
      ensures snap == Summary(state.latest, configuredCap, thisReplica)
      ensures snap.configuredCap == configuredCap
      ensures snap.thisReplicaRps == if thisReplica in state.latest then state.latest[thisReplica].rps else 0
      ensures |state.latest| < 0x1_0000_0000 ==>
                snap.replicasSeen as int == |state.latest| && snap.platformTotal as int == Sum(state.latest)
    {
      var latest := state.latest;
      var keys := ListOf(latest.Keys);
      var total := Total(latest, keys);
      var own := if thisReplica in latest then latest[thisReplica].rps else 0;
      if |latest| < 0x1_0000_0000 { TotalFits(latest, keys); }
      snap := Snapshot(configuredCap, total, own, (|latest| % 0x1_0000_0000) as u32);
    }

    /** Drains the queued messages, prunes, and reports. */
    method Tick(msgs: seq<DeltaMsg>, now: nat, fallback: nat) returns (snap: Snapshot)
      requires state.Valid() && state.clock <= now
      modifies state
      ensures state.Valid() && state.clock <= now
      ensures |state.order| == |state.latest|
      ensures state.latest ==
          Pruned(Inserted(old(state.latest), Stamped(msgs, now)), Cutoff(now, state.window, fallback))
      ensures snap == Summary(state.latest, configuredCap, thisReplica)
    {
      ghost var es := Stamped(msgs, now);
      for i := 0 to |msgs|
        invariant state.Valid() && state.clock <= now
        invariant state.latest == Inserted(old(state.latest), es[..i])
      {
        state.Insert(msgs[i], now);
        assert es[..i + 1][..i] == es[..i] && es[..i + 1] == es[..i] + [es[i]];
      }
      assert es[..|msgs|] == es;
      state.Prune(now, fallback);
      MapOfSize(state.order);
      snap := SnapshotAt();
    }
  }

  lemma {:induction false} InsertedIntoWindow(h: seq<Entry>, floor: int, es: seq<Entry>)
    requires forall i :: 0 <= i < |es| ==> es[i].ts >= floor
    ensures Inserted(Kept(h, floor), es) == Kept(h + es, floor)
    decreases |es|
  {
    if es == [] {
      assert h + es == h;
    } else {
      var n := |es| - 1;
      InsertedIntoWindow(h, floor, es[..n]);
      assert h + es == (h + es[..n]) + [es[n]];
      MapOfSnoc(h + es[..n], es[n]);
    }
  }

  /** One tick turns a window that equals the scan of the past into the scan of the past and the present; what an
      earlier cutoff dropped stays dropped. */
  lemma TickIsAScan(h: seq<Entry>, floor: int, msgs: seq<DeltaMsg>, now: nat, cutoff: int)
    requires floor <= now
    ensures Pruned(Inserted(Kept(h, floor), Stamped(msgs, now)), cutoff) ==
        Kept(h + Stamped(msgs, now), Max(floor, cutoff))
  {
    InsertedIntoWindow(h, floor, Stamped(msgs, now));
    var m := MapOf(h + Stamped(msgs, now));
    assert Pruned(Pruned(m, floor), cutoff) == Pruned(m, Max(floor, cutoff));
  }

  function Max(a: int, b: int): int { if a < b then b else a }

  /** Near the clock's origin the cutoff falls back to another reading; the prune is then the window's
      exactly when nothing in the window is older than that reading. */
  lemma FallbackIsExactIff(m: Latest, now: nat, window: nat, fallback: nat)
    ensures Pruned(m, Cutoff(now, window, fallback)) == Pruned(m, now - window) <==>
            now >= window || forall r :: r in m ==> m[r].ts >= fallback
  {
    if now < window {
      assert Pruned(m, now - window) == m;
      if r :| r in m && m[r].ts < fallback { assert r !in Pruned(m, fallback); }
    }
  }

  /** The messages drained by a tick, its clock reading, and the later one that pruning falls back to. */
  datatype TickInput = TickInput(msgs: seq<DeltaMsg>, now: nat, fallback: nat)

  /** All messages of the first ticks, in order of arrival. */
  function HistoryOf(ticks: seq<TickInput>): seq<Entry>
    decreases |ticks|
  {
    if ticks == [] then [] else
    var n := |ticks| - 1;
    HistoryOf(ticks[..n]) + Stamped(ticks[n].msgs, ticks[n].now)
  }

  /** The latest cutoff of the ticks so far. */
  function Floor(ticks: seq<TickInput>, window: nat): int
    decreases |ticks|
  {
    if ticks == [] then 0 else
    var n := |ticks| - 1;
    Max(Floor(ticks[..n], window), Cutoff(ticks[n].now, window, ticks[n].fallback))
  }

  /** Message `k` of tick `j` is from `r`, and no later message is. */
  ghost predicate IsLastFrom(ticks: seq<TickInput>, r: ReplicaId, j: int, k: int) {
    && 0 <= j < |ticks| && 0 <= k < |ticks[j].msgs| && ticks[j].msgs[k].replica == r
    && (forall l :: k < l < |ticks[j].msgs| ==> ticks[j].msgs[l].replica != r)
    && (forall i, l :: j < i < |ticks| && 0 <= l < |ticks[i].msgs| ==> ticks[i].msgs[l].replica != r)
  }

  /** What a scan keeps, in terms of the messages received: a replica is kept exactly when the tick of its last message
      is not before the cutoff, with the rate of that message and the time of that tick. */
  lemma ScanKeepsLast(ticks: seq<TickInput>, r: ReplicaId, cutoff: int)
    ensures r in Kept(HistoryOf(ticks), cutoff) <==>
            exists j, k :: IsLastFrom(ticks, r, j, k) && ticks[j].now >= cutoff
    ensures forall j, k :: IsLastFrom(ticks, r, j, k) && ticks[j].now >= cutoff ==>
              r in Kept(HistoryOf(ticks), cutoff) &&
              Kept(HistoryOf(ticks), cutoff)[r] == Entry(r, ticks[j].msgs[k].rps, ticks[j].now)
  {
    if r in MapOf(HistoryOf(ticks)) {
      var j, k := LastSent(ticks, r);
      forall i, l | IsLastFrom(ticks, r, i, l) ensures i == j && l == k { OneLast(ticks, r, i, l, j, k); }
    }
    forall i, l | IsLastFrom(ticks, r, i, l) ensures r in MapOf(HistoryOf(ticks)) { SenderIsKnown(ticks, i, l); }
  }

  lemma OneLast(ticks: seq<TickInput>, r: ReplicaId, i: int, l: int, j: int, k: int)
    requires IsLastFrom(ticks, r, i, l) && IsLastFrom(ticks, r, j, k)
    ensures i == j && l == k
  {
    assert ticks[i].msgs[l].replica == r && ticks[j].msgs[k].replica == r;
  }

  lemma {:induction false} SenderIsKnown(ticks: seq<TickInput>, i: int, l: int)
    requires 0 <= i < |ticks| && 0 <= l < |ticks[i].msgs|
    ensures ticks[i].msgs[l].replica in MapOf(HistoryOf(ticks))
    decreases |ticks|
  {
    var n := |ticks| - 1;
    var h, es, r := HistoryOf(ticks[..n]), Stamped(ticks[n].msgs, ticks[n].now), ticks[i].msgs[l].replica;
    var last := LastOf(h, es, r);
    if i < n { SenderIsKnown(ticks[..n], i, l); } else { assert es[l].replica == r; }
  }

  lemma {:induction false} LastSent(ticks: seq<TickInput>, r: ReplicaId) returns (j: int, k: int)
    requires r in MapOf(HistoryOf(ticks))
    ensures IsLastFrom(ticks, r, j, k) && MapOf(HistoryOf(ticks))[r] == Entry(r, ticks[j].msgs[k].rps, ticks[j].now)
    decreases |ticks|
  {
    var n := |ticks| - 1;
    var h, es := HistoryOf(ticks[..n]), Stamped(ticks[n].msgs, ticks[n].now);
    assert forall l :: 0 <= l < |es| ==> es[l] == Entry(ticks[n].msgs[l].replica, ticks[n].msgs[l].rps, ticks[n].now);
    var last := LastOf(h, es, r);
    if last >= 0 {
      j, k := n, last;
    } else {
      j, k := LastSent(ticks[..n], r);
      forall l | 0 <= l < |ticks[n].msgs| ensures ticks[n].msgs[l].replica != r { assert es[l].replica != r; }
    }
  }

  /** The last entry of `es` from `r` decides; without one, `h` does. */
  lemma {:induction false} LastOf(h: seq<Entry>, es: seq<Entry>, r: ReplicaId) returns (last: int)
    ensures -1 <= last < |es| && forall l :: last < l < |es| ==> es[l].replica != r
    ensures last >= 0 ==> es[last].replica == r && r in MapOf(h + es) && MapOf(h + es)[r] == es[last]
    ensures last == -1 ==> (r in MapOf(h + es) <==> r in MapOf(h))
    ensures last == -1 && r in MapOf(h) ==> MapOf(h + es)[r] == MapOf(h)[r]
    decreases |es|
  {
    last := -1;
    if es == [] {
      assert h + es == h;
    } else {
      var n := |es| - 1;
      assert h + es == (h + es[..n]) + [es[n]];
      MapOfSnoc(h + es[..n], es[n]);
      if es[n].replica == r { last := n; } else { last := LastOf(h, es[..n], r); }
    }
  }

  /** Clock readings do not decrease, and a tick's fallback reading comes before the next tick. */
  ghost predicate Ticking(ticks: seq<TickInput>) {
    forall i :: 0 < i < |ticks| ==> ticks[i - 1].now <= ticks[i].now && ticks[i - 1].fallback <= ticks[i].now
  }

  lemma {:induction false} FloorIsPast(ticks: seq<TickInput>, window: nat, now: nat)
    requires Ticking(ticks)
    requires ticks != [] ==> ticks[|ticks| - 1].now <= now && ticks[|ticks| - 1].fallback <= now
    ensures 0 <= Floor(ticks, window) <= now
    decreases |ticks|
  {
    if ticks != [] { FloorIsPast(ticks[..|ticks| - 1], window, ticks[|ticks| - 1].now); }
  }

  /** While every tick is at least one window length past the clock's origin, the floor is the window's start. */
  lemma {:induction false} FloorIsWindowStart(ticks: seq<TickInput>, window: nat)
    requires Ticking(ticks) && ticks != [] && forall i :: 0 <= i < |ticks| ==> ticks[i].now >= window
    ensures Floor(ticks, window) == ticks[|ticks| - 1].now - window
    decreases |ticks|
  {
    var n := |ticks| - 1;
    if n > 0 { FloorIsWindowStart(ticks[..n], window); }
  }

  /** What a scan of everything received up to tick `i` reports: the last message of every replica, kept if it is
      not older than any cutoff so far. */
  ghost function NaiveReport(ticks: seq<TickInput>, i: nat, window: nat, cap: u32, self: ReplicaId): Snapshot
    requires i < |ticks|
  {
    Summary(Kept(HistoryOf(ticks[..i + 1]), Floor(ticks[..i + 1], window)), cap, self)
  }

  /** In the regular case the scan is that of the sliding window itself. */
  lemma RegularReport(ticks: seq<TickInput>, i: nat, window: nat, cap: u32, self: ReplicaId)
    requires Ticking(ticks) && i < |ticks| && forall j :: 0 <= j <= i ==> ticks[j].now >= window
    ensures NaiveReport(ticks, i, window, cap, self) ==
        Summary(Kept(HistoryOf(ticks[..i + 1]), ticks[i].now - window), cap, self)
  {
    FloorIsWindowStart(ticks[..i + 1], window);
  }

  /** Exactly when a report that follows fallback cutoffs is that of the sliding window: no replica's last message
      lies inside the window and before the floor. */
  lemma ReportIsWindowIff(h: seq<Entry>, start: int, floor: int)
    requires start <= floor
    ensures Kept(h, floor) == Kept(h, start) <==>
        forall r :: r in MapOf(h) && start <= MapOf(h)[r].ts ==> floor <= MapOf(h)[r].ts
  {
    var m := MapOf(h);
    if forall r :: r in m && start <= m[r].ts ==> floor <= m[r].ts {
      assert Pruned(m, floor) == Pruned(m, start);
    } else {
      var r :| r in m && start <= m[r].ts && !(floor <= m[r].ts);
      assert r in Pruned(m, start) && r !in Pruned(m, floor);
    }
  }

  lemma TickReports(ticks: seq<TickInput>, i: nat, window: nat)
    requires i < |ticks| && Ticking(ticks)
    ensures var tick := ticks[i];
            Pruned(Inserted(Kept(HistoryOf(ticks[..i]), Floor(ticks[..i], window)), Stamped(tick.msgs, tick.now)),
                   Cutoff(tick.now, window, tick.fallback)) ==
            Kept(HistoryOf(ticks[..i + 1]), Floor(ticks[..i + 1], window))
  {
    FloorIsPast(ticks[..i], window, ticks[i].now);
    TickIsAScan(HistoryOf(ticks[..i]), Floor(ticks[..i], window), ticks[i].msgs, ticks[i].now,
        Cutoff(ticks[i].now, window, ticks[i].fallback));
    assert ticks[..i + 1][..i] == ticks[..i];
  }

  method DriveTick(aggregator: Aggregator, ticks: seq<TickInput>, i: nat) returns (snap: Snapshot)
    requires i < |ticks| && Ticking(ticks) && aggregator.state.Valid() && aggregator.state.clock <= ticks[i].now
    requires aggregator.state.latest == Kept(HistoryOf(ticks[..i]), Floor(ticks[..i], aggregator.state.window))
    modifies aggregator.state
    ensures aggregator.state.Valid() && aggregator.state.clock <= ticks[i].now
    ensures aggregator.state.latest == Kept(HistoryOf(ticks[..i + 1]), Floor(ticks[..i + 1], aggregator.state.window))
    ensures snap == NaiveReport(ticks, i, aggregator.state.window, aggregator.configuredCap, aggregator.thisReplica)
  {
    TickReports(ticks, i, aggregator.state.window);
    snap := aggregator.Tick(ticks[i].msgs, ticks[i].now, ticks[i].fallback);
  }

  ghost predicate AreReports(snaps: seq<Snapshot>, ticks: seq<TickInput>, window: nat, cap: u32, self: ReplicaId) {
    |snaps| <= |ticks| && forall i :: 0 <= i < |snaps| ==> snaps[i] == NaiveReport(ticks, i, window, cap, self)
  }

  /** A whole run of a sidecar: every reported snapshot is the naive scan of everything received so far. */
  method Drive(self: ReplicaId, cap: u32, window: nat, ticks: seq<TickInput>) returns (snaps: seq<Snapshot>)
    requires Ticking(ticks)
    ensures |snaps| == |ticks|
    ensures forall i :: 0 <= i < |ticks| ==> snaps[i] == NaiveReport(ticks, i, window, cap, self)
  {
    var aggregator := new Aggregator(self, cap, window);
    snaps := [];
    for i := 0 to |ticks|
      invariant |snaps| == i && AreReports(snaps, ticks, window, cap, self)
      invariant fresh(aggregator.state) && aggregator.state.Valid() && aggregator.state.window == window
      invariant aggregator.configuredCap == cap && aggregator.thisReplica == self
      invariant i < |ticks| ==> aggregator.state.clock <= ticks[i].now
      invariant aggregator.state.latest == Kept(HistoryOf(ticks[..i]), Floor(ticks[..i], window))
    {
      var snap := DriveTick(aggregator, ticks, i);
      snaps := snaps + [snap];
    }
  }
}
