/** The ingress-local public-port pool (edge-ingress/src/l4.rs, `L4PortPool`).

    `Pool` is the abstract value of the allocator and the functions on it specify one call each;
    the class `L4PortPool` is the allocator itself, with the walk over the range as a loop. */
module PortPool {
  import opened Common

  /** A released port and the instant from which it may be handed out again. */
  datatype Cooling = Cooling(port: u16, until: nat)

  datatype Pool = Pool(next: u16, start: u16, end: u16, cooldown: nat, cooling: seq<Cooling>, taken: set<u16>) {

    predicate InRange(p: u16) { start <= p <= end }

    /** What the startup check on the configured range and the walk itself guarantee. */
    predicate Ranged() { 0 < start <= next <= end }

    predicate Cools(p: u16) { exists i :: 0 <= i < |cooling| && cooling[i].port == p }

    predicate Blocked(p: u16) { p in taken || Cools(p) }

    function Size(): (n: nat)
      requires Ranged()
    {
      end as int - start as int + 1
    }

    /** The port visited after `p`. */
    function Succ(p: u16): (q: u16)
      requires Ranged() && InRange(p)
      ensures InRange(q)
    {
      if p >= end then start else p + 1
    }

    /** The `k`-th port in cyclic order from `next`. */
    function Nth(k: nat): (p: u16)
      requires Ranged() && k <= Size()
      ensures InRange(p)
    {
      var i := next as int + k;
      (if i <= end as int then i else i - Size()) as u16
    }
  }

  function Fresh(start: u16, end: u16, cooldown: nat): Pool {
    Pool(start, start, end, cooldown, [], {})
  }

  /** The entries whose cooldown has not elapsed at `now`, in order. */
  function Reap(cs: seq<Cooling>, now: nat): (r: seq<Cooling>)
    ensures forall c :: c in r <==> c in cs && now < c.until
  {
    if cs == [] then [] else
    (if now >= cs[0].until then [] else [cs[0]]) + Reap(cs[1..], now)
  }

  /** Walk at most `attempts` ports from `port`; the first one that is neither held nor cooling. */
  function Scan(pool: Pool, port: u16, attempts: nat): Option<u16>
    requires pool.Ranged() && pool.InRange(port)
    decreases attempts
  {
    if attempts == 0 then None
    else if pool.Blocked(port) then Scan(pool, pool.Succ(port), attempts - 1)
    else Some(port)
  }

  function Acquired(pool: Pool, now: nat): (r: (Pool, Option<u16>))
    requires pool.Ranged()
    ensures r.0.Ranged() && r.0.start == pool.start && r.0.end == pool.end && r.0.cooldown == pool.cooldown
  {
    var reaped := pool.(cooling := Reap(pool.cooling, now));
    var found := Scan(reaped, reaped.next, reaped.Size());
    ScanIsFirstFree(reaped);
    if found == None then (reaped, None)
    else (reaped.(next := reaped.Succ(found.value), taken := reaped.taken + {found.value}), found)
  }

  function Released(pool: Pool, port: u16, now: nat): Pool {
    if pool.Cools(port) || port !in pool.taken then pool
    else pool.(taken := pool.taken - {port}, cooling := pool.cooling + [Cooling(port, now + pool.cooldown)])
  }

  function ReleaseAll(pool: Pool, ports: seq<u16>, now: nat): Pool
    decreases |ports|
  {
    if ports == [] then pool else ReleaseAll(Released(pool, ports[0], now), ports[1..], now)
  }

  // ---------------------------------------------------------------- the walk is a complete cyclic search

  /** Every port of the range is visited by one full walk. */
  lemma NthCoversRange(pool: Pool, p: u16) returns (k: nat)
    requires pool.Ranged() && pool.InRange(p)
    ensures k < pool.Size() && pool.Nth(k) == p
  {
    k := if pool.next <= p then p as int - pool.next as int else p as int - pool.next as int + pool.Size();
  }

  lemma {:induction false} ScanFrom(pool: Pool, k: nat) returns (stop: nat)
    requires pool.Ranged() && k <= pool.Size()
    ensures k <= stop <= pool.Size()
    ensures forall j :: k <= j < stop ==> pool.Blocked(pool.Nth(j))
    ensures Scan(pool, pool.Nth(k), pool.Size() - k) ==
            if stop < pool.Size() then Some(pool.Nth(stop)) else None
    ensures stop < pool.Size() ==> !pool.Blocked(pool.Nth(stop))
    decreases pool.Size() - k
  {
    stop := k;
    if k < pool.Size() && pool.Blocked(pool.Nth(k)) {
      stop := ScanFrom(pool, k + 1);
    }
  }

  /** `p` is the first port in cyclic order from `next` that is neither held nor cooling. */
  ghost predicate FirstFree(pool: Pool, p: u16)
    requires pool.Ranged()
  {
    && pool.InRange(p) && !pool.Blocked(p)
    && exists k :: 0 <= k < pool.Size() && p == pool.Nth(k) && forall j :: 0 <= j < k ==> pool.Blocked(pool.Nth(j))
  }

  /** A full walk returns the first free port in cyclic order from `next`, and it returns
      nothing exactly when every port of the range is held or cooling. */
  lemma ScanIsFirstFree(pool: Pool)
    requires pool.Ranged()
    ensures var r := Scan(pool, pool.next, pool.Size());
            && (r == None <==> forall p :: pool.InRange(p) ==> pool.Blocked(p))
            && (r.Some? ==> FirstFree(pool, r.value))
  {
    var stop := ScanFrom(pool, 0);
    if stop == pool.Size() {
      forall p | pool.InRange(p) ensures pool.Blocked(p) {
        var k := NthCoversRange(pool, p);
      }
    } else {
      assert FirstFree(pool, pool.Nth(stop));
    }
  }

  /** Some entry for `p` has not cooled down at `now`. */
  ghost predicate StillCools(cs: seq<Cooling>, p: u16, now: nat) {
    exists c :: c in cs && c.port == p && now < c.until
  }

  /** What a call of `acquire` at `now` does, for every pool over an accepted range. */
  lemma AcquireIsCompleteCyclicSearch(pool: Pool, now: nat)
    requires pool.Ranged()
    ensures var (after, r) := Acquired(pool, now);
            var reaped := pool.(cooling := Reap(pool.cooling, now));
            && (r == None <==> forall p :: pool.InRange(p) ==> p in pool.taken || StillCools(pool.cooling, p, now))
            && (r == None ==> after == reaped)
            && (r.Some? ==> FirstFree(reaped, r.value))
            && (r.Some? ==> after == reaped.(next := reaped.Succ(r.value), taken := pool.taken + {r.value}))
  {
    var reaped := pool.(cooling := Reap(pool.cooling, now));
    ScanIsFirstFree(reaped);
    forall p ensures reaped.Cools(p) <==> StillCools(pool.cooling, p, now) {
    }
    assert forall p :: pool.InRange(p) == reaped.InRange(p);
  }

  /** The walk's length `end - start + 1`, computed on 16 bits, is exact for every range the
      startup check accepts; for the ranges it refuses it is exact except on the full range. */
  lemma RangeLengthFits(start: u16, end: u16)
    ensures 0 < start <= end ==> end as int - start as int + 1 < 0x1_0000
    ensures (0 <= end as int - start as int && end as int - start as int + 1 < 0x1_0000) <==>
            start <= end && !(start == 0 && end == 0xFFFF)
  {
  }

  // ---------------------------------------------------------------- the allocator

  class L4PortPool {
    var nextPort: u16
    const start: u16
    const end: u16
    const cooldown: nat
    var cooling: seq<Cooling>
    var taken: set<u16>

    ghost function Model(): Pool
      reads this
    {
      Pool(nextPort, start, end, cooldown, cooling, taken)
    }

    constructor (start: u16, end: u16, cooldown: nat)
      ensures Model() == Fresh(start, end, cooldown)
    {
      this.nextPort, this.start, this.end, this.cooldown := start, start, end, cooldown;
      this.cooling, this.taken := [], {};
    }

    method ReapCooledPorts(now: nat)
      modifies this
      ensures Model() == old(Model()).(cooling := Reap(old(cooling), now))
    {
      cooling := Reap(cooling, now);
    }

    predicate IsCooling(port: u16)
      reads this
      ensures IsCooling(port) == Model().Cools(port)
    {
      exists i :: 0 <= i < |cooling| && cooling[i].port == port
    }

    method Acquire(now: nat) returns (r: Option<u16>)
      requires Model().Ranged()
      modifies this
      ensures (Model(), r) == Acquired(old(Model()), now)
    {
      ReapCooledPorts(now);
      ghost var reaped := Model();
      ScanIsFirstFree(reaped);
      var attempts := 0;
      var rangeLen := (end - start + 1) as int;
      while attempts < rangeLen
        invariant 0 <= attempts <= rangeLen == reaped.Size()
        invariant Model() == reaped.(next := reaped.Nth(attempts))
        invariant Scan(reaped, reaped.next, rangeLen) == Scan(reaped, nextPort, rangeLen - attempts)
      {
        var port := nextPort;
        nextPort := if nextPort >= end then start else nextPort + 1;
        attempts := attempts + 1;
        if port in taken {
          continue;
        }
        if IsCooling(port) {
          continue;
        }
        taken := taken + {port};
        return Some(port);
      }
      return None;
    }

    method Release(port: u16, now: nat)
      modifies this
      ensures Model() == Released(old(Model()), port, now)
    {
      if IsCooling(port) {
        return;
      }
      if port !in taken {
        return;
      }
      taken := taken - {port};
      cooling := cooling + [Cooling(port, now + cooldown)];
    }
  }

  // ---------------------------------------------------------------- whole runs of the allocator

  datatype Call = CallAcquire(now: nat) | CallRelease(port: u16, now: nat) | CallReap(now: nat)

  function Exec(pool: Pool, call: Call): (r: (Pool, Option<u16>))
    requires pool.Ranged()
    ensures r.0.Ranged()
  {
    match call
    case CallAcquire(now) => Acquired(pool, now)
    case CallRelease(port, now) => (Released(pool, port, now), None)
    case CallReap(now) => (pool.(cooling := Reap(pool.cooling, now)), None)
  }

  function Run(pool: Pool, calls: seq<Call>): (r: Pool)
    requires pool.Ranged()
    ensures r.Ranged()
    decreases |calls|
  {
    if calls == [] then pool else Run(Exec(pool, calls[0]).0, calls[1..])
  }

  /** Held and cooling ports are in range, disjoint, and no port cools twice. */
  ghost predicate Sound(pool: Pool) {
    && pool.Ranged()
    && (forall p :: p in pool.taken ==> pool.InRange(p))
    && (forall c :: c in pool.cooling ==> pool.InRange(c.port) && c.port !in pool.taken)
    && DistinctPorts(pool.cooling)
  }

  ghost predicate DistinctPorts(cs: seq<Cooling>) {
    forall i, j :: 0 <= i < j < |cs| ==> cs[i].port != cs[j].port
  }

  lemma ReapKeepsPortsDistinct(cs: seq<Cooling>, now: nat)
    requires DistinctPorts(cs)
    ensures DistinctPorts(Reap(cs, now))
  {
    if cs != [] {
      ReapKeepsPortsDistinct(cs[1..], now);
      var tail := Reap(cs[1..], now);
      forall j | 0 <= j < |tail| ensures tail[j].port != cs[0].port {
        assert tail[j] in cs[1..];
      }
    }
  }

  lemma AcquireKeepsSound(pool: Pool, now: nat)
    requires Sound(pool)
    ensures Sound(Acquired(pool, now).0)
  {
    AcquireIsCompleteCyclicSearch(pool, now);
    ReapKeepsPortsDistinct(pool.cooling, now);
    var reaped := pool.(cooling := Reap(pool.cooling, now));
    ScanIsFirstFree(reaped);
  }

  lemma ReleaseKeepsSound(pool: Pool, port: u16, now: nat)
    requires Sound(pool)
    ensures Sound(Released(pool, port, now))
    ensures Released(pool, port, now).taken == pool.taken - {port}
    ensures forall c :: c in pool.cooling ==> c in Released(pool, port, now).cooling
    ensures port in pool.taken ==> Cooling(port, now + pool.cooldown) in Released(pool, port, now).cooling
  {
    if pool.Cools(port) {
      var i :| 0 <= i < |pool.cooling| && pool.cooling[i].port == port;
      assert pool.cooling[i] in pool.cooling;
    }
  }

  /** What a release does to every sound pool: a held port is given up and cools for the cooldown, last in the list; a
      port that is not held changes nothing. */
  lemma ReleaseIsExact(pool: Pool, port: u16, now: nat)
    requires Sound(pool)
    ensures port !in pool.taken ==> Released(pool, port, now) == pool
    ensures port in pool.taken ==>
            && Released(pool, port, now).taken == pool.taken - {port}
            && Released(pool, port, now).cooling == pool.cooling + [Cooling(port, now + pool.cooldown)]
            && Released(pool, port, now).next == pool.next
  {
    if pool.Cools(port) {
      var i :| 0 <= i < |pool.cooling| && pool.cooling[i].port == port;
      assert pool.cooling[i] in pool.cooling;
    }
  }

  lemma {:induction false} ReleaseAllEffect(pool: Pool, ports: seq<u16>, now: nat)
    requires Sound(pool)
    ensures var after := ReleaseAll(pool, ports, now);
            && Sound(after) && after.taken == pool.taken - Elements(ports)
            && after.start == pool.start && after.end == pool.end && after.cooldown == pool.cooldown
            && (forall c :: c in pool.cooling ==> c in after.cooling)
            && (forall p :: p in ports && p in pool.taken ==> Cooling(p, now + pool.cooldown) in after.cooling)
    decreases |ports|
  {
    if ports != [] {
      var p, rest := ports[0], ports[1..];
      ReleaseKeepsSound(pool, p, now);
      var once := Released(pool, p, now);
      ReleaseAllEffect(once, rest, now);
      assert Elements(ports) == {p} + Elements(rest);
      forall q | q in ports && q in pool.taken
          ensures Cooling(q, now + pool.cooldown) in ReleaseAll(pool, ports, now).cooling {
        assert q != p ==> q in rest && q in once.taken;
        assert q == p ==> Cooling(p, now + pool.cooldown) in once.cooling;
      }
    }
  }

  lemma ReleasedPortCools(pool: Pool, ports: seq<u16>, now: nat, p: u16)
    requires Sound(pool) && p in pool.taken && p !in ReleaseAll(pool, ports, now).taken
    ensures Cooling(p, now + pool.cooldown) in ReleaseAll(pool, ports, now).cooling
  {
    ReleaseAllEffect(pool, ports, now);
  }

  lemma ExecKeepsSound(pool: Pool, call: Call)
    requires Sound(pool)
    ensures Sound(Exec(pool, call).0)
  {
    match call
    case CallAcquire(now) => AcquireKeepsSound(pool, now);
    case CallRelease(port, now) => ReleaseKeepsSound(pool, port, now);
    case CallReap(now) => ReapKeepsPortsDistinct(pool.cooling, now);
  }

  /** The invariant holds after every run of calls, with any clock. */
  lemma {:induction false} RunKeepsSound(pool: Pool, calls: seq<Call>)
    requires Sound(pool)
    ensures Sound(Run(pool, calls))
    decreases |calls|
  {
    if calls != [] {
      ExecKeepsSound(pool, calls[0]);
      RunKeepsSound(Exec(pool, calls[0]).0, calls[1..]);
    }
  }

  lemma ExecKeepsCooling(pool: Pool, call: Call, c: Cooling)
    requires Sound(pool) && c in pool.cooling && call.now < c.until
    ensures c in Exec(pool, call).0.cooling
    ensures Exec(pool, call).1 != Some(c.port)
  {
    if call.CallAcquire? {
      var reaped := pool.(cooling := Reap(pool.cooling, call.now));
      ScanIsFirstFree(reaped);
      assert c in reaped.cooling;
      var i :| 0 <= i < |reaped.cooling| && reaped.cooling[i] == c;
      assert reaped.Cools(c.port);
    }
  }

  lemma {:induction false} CoolingLasts(pool: Pool, calls: seq<Call>, c: Cooling)
    requires Sound(pool) && c in pool.cooling
    requires forall i :: 0 <= i < |calls| ==> calls[i].now < c.until
    ensures Sound(Run(pool, calls)) && c in Run(pool, calls).cooling
    decreases |calls|
  {
    if calls != [] {
      ExecKeepsSound(pool, calls[0]);
      ExecKeepsCooling(pool, calls[0], c);
      CoolingLasts(Exec(pool, calls[0]).0, calls[1..], c);
    }
  }

  lemma {:induction false} RunSplit(pool: Pool, calls: seq<Call>, i: nat)
    requires pool.Ranged() && i <= |calls|
    ensures Run(pool, calls) == Run(Run(pool, calls[..i]), calls[i..])
    decreases i
  {
    if i == 0 {
      assert calls[..0] == [] && calls[0..] == calls;
    } else {
      RunSplit(Exec(pool, calls[0]).0, calls[1..], i - 1);
      assert calls[..i][1..] == calls[1..][..i - 1] && calls[1..][i - 1..] == calls[i..];
    }
  }

  /** Cooldown over whole runs. A held port released by call `i` is not handed out by a later
      call `j` before its cooldown has elapsed, whatever releases come between. */
  lemma CooldownIsRespected(start: u16, end: u16, cooldown: nat, calls: seq<Call>, i: nat, j: nat)
    requires 0 < start <= end
    requires i < j < |calls|
    requires forall a, b :: 0 <= a < b < |calls| ==> calls[a].now <= calls[b].now
    requires calls[i].CallRelease? && calls[i].port in Run(Fresh(start, end, cooldown), calls[..i]).taken
    requires calls[j].CallAcquire? && calls[j].now < calls[i].now + cooldown
    ensures Exec(Run(Fresh(start, end, cooldown), calls[..j]), calls[j]).1 != Some(calls[i].port)
  {
    var pool := Fresh(start, end, cooldown);
    var before := Run(pool, calls[..i]);
    RunKeepsSound(pool, calls[..i]);
    RunKeepsCooldown(pool, calls[..i]);
    ReleaseKeepsSound(before, calls[i].port, calls[i].now);
    var c := Cooling(calls[i].port, calls[i].now + cooldown);
    RunSplit(pool, calls[..j], i);
    assert calls[..j][..i] == calls[..i] && calls[..j][i..] == [calls[i]] + calls[i + 1..j];
    assert ([calls[i]] + calls[i + 1..j])[1..] == calls[i + 1..j];
    CoolingLasts(Exec(before, calls[i]).0, calls[i + 1..j], c);
    ExecKeepsCooling(Run(pool, calls[..j]), calls[j], c);
  }

  lemma {:induction false} RunKeepsCooldown(pool: Pool, calls: seq<Call>)
    requires pool.Ranged()
    ensures Run(pool, calls).cooldown == pool.cooldown
    decreases |calls|
  {
    if calls != [] { RunKeepsCooldown(Exec(pool, calls[0]).0, calls[1..]); }
  }
}
