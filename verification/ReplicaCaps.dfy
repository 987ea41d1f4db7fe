/** The cap each replica computes from its snapshot, and what the caps of a whole fleet add up to
    (edge-ingress-sidecar/src/aggregate.rs, `Snapshot::per_replica_cap`). */
module ReplicaCaps {
  import opened Common
  import opened Aggregation

  function SatSub64(a: u64, b: u64): u64 { if a >= b then a - b else 0 }

  function SatSub32(a: u32, b: u32): u32 { if a >= b then a - b else 0 }

  /** The configured cap less the average rate of the other replicas, but at least 1. Typing the
      intermediate values as machine integers makes every step of it free of overflow. */
  function PerReplicaCap(s: Snapshot): (r: Option<u32>)
    ensures r == None <==> s.configuredCap == 0 || s.replicasSeen == 0
    ensures r.Some? ==> 1 <= r.value <= s.configuredCap
  {
    if s.configuredCap == 0 then None
    else if s.replicasSeen == 0 then None
    else
      var othersShare: u64 :=
        if s.replicasSeen > 1 then
          DivBelow(SatSub64(s.platformTotal, s.thisReplicaRps as u64) as int, s.replicasSeen as int - 1);
          SatSub64(s.platformTotal, s.thisReplicaRps as u64) / (s.replicasSeen - 1) as u64
        else 0;
      var other := (if othersShare < U32_MAX as u64 then othersShare else U32_MAX as u64) as u32;
      var left := SatSub32(s.configuredCap, other);
      Some(if left < 1 then 1 else left)
  }

  /** The value of the cap for every snapshot, in mathematical integers: the configured cap less the others' average
      share, or 1 when that share reaches the cap; a single replica has the whole cap. */
  lemma CapIsExact(s: Snapshot)
    requires s.configuredCap > 0 && s.replicasSeen > 0
    ensures var cap, total, own, seen :=
                s.configuredCap as int, s.platformTotal as int, s.thisReplicaRps as int, s.replicasSeen as int;
            var others := if seen == 1 then 0 else (if total > own then total - own else 0) / (seen - 1);
            PerReplicaCap(s).Some? && PerReplicaCap(s).value as int == if others < cap then cap - others else 1
  {
    if s.replicasSeen > 1 {
      DivBelow(SatSub64(s.platformTotal, s.thisReplicaRps as u64) as int, s.replicasSeen as int - 1);
    }
  }

  lemma MulMono(d: int, x: int, y: int)
    requires 0 <= d && x <= y
    ensures d * x <= d * y
  {
  }

  lemma Distribute(d: int, x: int, y: int)
    ensures d * (x + y) == d * x + d * y
  {
  }

  lemma QuotientBounds(q: int, d: int, a: int)
    requires 0 <= a && 0 < d && d * q <= a < d * q + d
    ensures 0 <= q <= a
  {
    if q < 0 { MulMono(d, q, -1); }
    if q > a { MulMono(q, 1, d); }
  }

  lemma DivBelow(a: int, d: int)
    requires 0 <= a && 0 < d
    ensures 0 <= a / d <= a
    ensures d * (a / d) <= a < d * (a / d) + d
  {
    var q := a / d;
    assert a == d * q + a % d;
    QuotientBounds(q, d, a);
  }

  // ---------------------------------------------------------------- the fleet

  /** The integer average of the other replicas' rates, as replica `i` computes it. */
  function Share(rates: seq<u32>, i: nat): (o: int)
    requires |rates| >= 2 && i < |rates|
  {
    (SumSeq(rates) - rates[i] as int) / (|rates| - 1)
  }

  function SnapshotOf(cap: u32, rates: seq<u32>, i: nat): Snapshot
    requires i < |rates| < 0x1_0000_0000
  {
    SumSeqBound(rates);
    Snapshot(cap, SumSeq(rates) as u64, rates[i], |rates| as u32)
  }

  function Cap(cap: u32, rates: seq<u32>, i: nat): int
    requires cap > 0 && i < |rates| < 0x1_0000_0000
  {
    PerReplicaCap(SnapshotOf(cap, rates, i)).value as int
  }

  function SumShares(rates: seq<u32>, k: nat): int
    requires |rates| >= 2 && k <= |rates|
  {
    if k == 0 then 0 else SumShares(rates, k - 1) + Share(rates, k - 1)
  }

  function SumCaps(cap: u32, rates: seq<u32>, k: nat): int
    requires cap > 0 && k <= |rates| < 0x1_0000_0000
  {
    if k == 0 then 0 else SumCaps(cap, rates, k - 1) + Cap(cap, rates, k - 1)
  }

  /** By how much a share exceeds what leaves a cap of 1. */
  function Over(cap: u32, rates: seq<u32>, i: nat): nat
    requires |rates| >= 2 && i < |rates|
  {
    if Share(rates, i) < cap as int then 0 else Share(rates, i) - cap as int + 1
  }

  function Excess(cap: u32, rates: seq<u32>, k: nat): nat
    requires |rates| >= 2 && k <= |rates|
  {
    if k == 0 then 0 else Excess(cap, rates, k - 1) + Over(cap, rates, k - 1)
  }

  lemma {:induction false} RateAtMostTotal(rates: seq<u32>, i: nat)
    requires i < |rates|
    ensures rates[i] as int <= SumSeq(rates)
    decreases |rates|
  {
    var n := |rates| - 1;
    if i < n { RateAtMostTotal(rates[..n], i); }
  }

  lemma CapOfShare(cap: u32, rates: seq<u32>, i: nat)
    requires cap > 0 && 2 <= |rates| < 0x1_0000_0000 && i < |rates|
    ensures Share(rates, i) >= 0
    ensures Cap(cap, rates, i) == cap as int - Share(rates, i) + Over(cap, rates, i)
  {
    RateAtMostTotal(rates, i);
    SumSeqBound(rates);
    CapIsExact(SnapshotOf(cap, rates, i));
    DivBelow(SumSeq(rates) - rates[i] as int, |rates| - 1);
  }

  lemma PrefixStep(d: int, shares: int, o: int, total: int, rate: int, sum: int, k: int)
    requires d * shares <= k * total - sum <= d * shares + k * (d - 1)
    requires d * o <= total - rate <= d * o + (d - 1)
    ensures d * (shares + o) <= (k + 1) * total - (sum + rate) <= d * (shares + o) + (k + 1) * (d - 1)
  {
    Distribute(d, shares, o);
    Distribute(total, k, 1);
    Distribute(d - 1, k, 1);
  }

  lemma WholeFleet(n: int, shares: int, total: int)
    requires n >= 2 && (n - 1) * shares <= n * total - total <= (n - 1) * shares + n * (n - 2)
    ensures total - n < shares <= total
  {
    var d := n - 1;
    Distribute(total, d, 1);
    if shares > total {
      MulMono(d, total + 1, shares);
      Distribute(d, total, 1);
    }
    if shares <= total - n {
      MulMono(d, shares, total - n);
      Distribute(d, total, -n);
      Distribute(n, d, -1);
    }
  }

  lemma {:induction false} SharesOfPrefix(rates: seq<u32>, k: nat)
    requires |rates| >= 2 && k <= |rates|
    ensures var d := |rates| - 1;
            var exact := k * SumSeq(rates) - SumSeq(rates[..k]);
            d * SumShares(rates, k) <= exact && exact <= d * SumShares(rates, k) + k * (d - 1)
    decreases k
  {
    if k > 0 {
      var d, total, r := |rates| - 1, SumSeq(rates), rates[k - 1] as int;
      SharesOfPrefix(rates, k - 1);
      RateAtMostTotal(rates, k - 1);
      DivBelow(total - r, d);
      assert rates[..k][..k - 1] == rates[..k - 1];
      assert SumSeq(rates[..k]) == SumSeq(rates[..k - 1]) + r;
      PrefixStep(d, SumShares(rates, k - 1), Share(rates, k - 1), total, r, SumSeq(rates[..k - 1]), k - 1);
    }
  }

  /** The shares of a fleet add up to its total, short by less than one per replica. */
  lemma SharesAddUp(rates: seq<u32>)
    requires |rates| >= 2
    ensures SumSeq(rates) - |rates| < SumShares(rates, |rates|) <= SumSeq(rates)
  {
    SharesOfPrefix(rates, |rates|);
    assert rates[..|rates|] == rates;
    WholeFleet(|rates|, SumShares(rates, |rates|), SumSeq(rates));
  }

  lemma {:induction false} CapsOfPrefix(cap: u32, rates: seq<u32>, k: nat)
    requires cap > 0 && 2 <= |rates| < 0x1_0000_0000 && k <= |rates|
    ensures SumCaps(cap, rates, k) == k * cap as int - SumShares(rates, k) + Excess(cap, rates, k)
    decreases k
  {
    if k > 0 {
      CapsOfPrefix(cap, rates, k - 1);
      CapOfShare(cap, rates, k - 1);
      assert k * cap as int == (k - 1) * cap as int + cap as int;
    }
  }

  lemma {:induction false} NoExcess(cap: u32, rates: seq<u32>, k: nat)
    requires |rates| >= 2 && k <= |rates|
    ensures Excess(cap, rates, k) == 0 <==> forall i :: 0 <= i < k ==> Share(rates, i) < cap as int
    decreases k
  {
    if k > 0 { NoExcess(cap, rates, k - 1); }
  }

  /** Cluster-wide bound: the caps of a fleet that shares one window of total T add up to n * cap - T, give or take
      less than n, and what the shares exceed the cap by; the latter is nothing exactly when no share reaches it. */
  lemma FleetCapBound(cap: u32, rates: seq<u32>)
    requires cap > 0 && 2 <= |rates| < 0x1_0000_0000
    ensures var n := |rates|;
            var base := n * cap as int - SumSeq(rates) + Excess(cap, rates, n);
            && base <= SumCaps(cap, rates, n) < base + n
            && (Excess(cap, rates, n) == 0 <==> forall i :: 0 <= i < n ==> Share(rates, i) < cap as int)
  {
    CapsOfPrefix(cap, rates, |rates|);
    SharesAddUp(rates);
    NoExcess(cap, rates, |rates|);
  }

  /** Overload: where every share reaches the cap, every replica is throttled to 1. */
  lemma {:induction false} OverloadedFleet(cap: u32, rates: seq<u32>, k: nat)
    requires cap > 0 && 2 <= |rates| < 0x1_0000_0000 && k <= |rates|
    requires forall i :: 0 <= i < |rates| ==> Share(rates, i) >= cap as int
    ensures SumCaps(cap, rates, k) == k
    decreases k
  {
    if k > 0 {
      OverloadedFleet(cap, rates, k - 1);
      CapOfShare(cap, rates, k - 1);
    }
  }

  /** The snapshots the fleet's sidecars report from one shared window are those the bound speaks of. */
  lemma SharedWindowSnapshots(m: Latest, keys: seq<ReplicaId>, cap: u32, i: nat)
    requires Elements(keys) == m.Keys && NoDuplicates(keys) && i < |keys| < 0x1_0000_0000
    ensures Summary(m, cap, keys[i]) == SnapshotOf(cap, Rates(m, keys), i)
  {
    SumOfListing(m, keys);
    TotalFits(m, keys);
    assert keys[i] in Elements(keys);
  }
}
