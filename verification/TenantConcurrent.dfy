/** The in-flight limiter (caddy-modules/tenant_concurrent/main.go) between Provision and Cleanup, as a
    step system over any number of goroutines. A step is one critical section of the mutex or one
    channel operation; a channel is a counter of occupied slots with capacity `limit`. */
module TenantConcurrent {
  import opened Common

  /** Where one request is. */
  datatype Request =
    | Entered(key: string)
    | Missed(key: string)                 // read-locked lookup found no bucket
    | Has(key: string, bucket: nat)       // about to try a slot
    | Serving(key: string, bucket: nat)   // forwarded, slot held
    | Answered(status: int)

  datatype State = State(limit: nat, buckets: map<string, nat>, occupied: map<nat, nat>, requests: map<nat, Request>)

  datatype Step =
    | Arrive(g: nat, key: string)
    | ReadLookup(g: nat)
    | WriteLookup(g: nat, made: nat)
    | Admit(g: nat)
    | Reject(g: nat)
    | Finish(g: nat)

  /** A limit below one is refused; otherwise there are no buckets yet. */
  function Provision(limit: int): (r: Option<State>)
    ensures r.Some? <==> limit > 0
    ensures r.Some? ==> r.value.limit == limit && r.value.buckets == map[] && r.value.requests == map[] && Inv(r.value)
  {
    if limit <= 0 then None else Some(State(limit, map[], map[], map[]))
  }

  predicate Enabled(s: State, step: Step) {
    match step
    case Arrive(g, _) => g !in s.requests
    case ReadLookup(g) => g in s.requests && s.requests[g].Entered?
    case WriteLookup(g, made) => g in s.requests && s.requests[g].Missed? && made !in s.occupied
    case Admit(g) =>
      g in s.requests && s.requests[g].Has? && s.requests[g].bucket in s.occupied
          && s.occupied[s.requests[g].bucket] < s.limit
    case Reject(g) =>
      g in s.requests && s.requests[g].Has? && s.requests[g].bucket in s.occupied
          && s.occupied[s.requests[g].bucket] >= s.limit
    case Finish(g) =>  // a receive from an empty channel would block
      g in s.requests && s.requests[g].Serving? && s.requests[g].bucket in s.occupied
          && s.occupied[s.requests[g].bucket] > 0
  }

  function Do(s: State, step: Step): State
    requires Enabled(s, step)
  {
    match step
    case Arrive(g, key) =>
      s.(requests := s.requests[g := if key == "" then Answered(500) else Entered(key)])
    case ReadLookup(g) =>
      var key := s.requests[g].key;
      s.(requests := s.requests[g := if key in s.buckets then Has(key, s.buckets[key]) else Missed(key)])
    case WriteLookup(g, made) =>
      var key := s.requests[g].key;
      if key in s.buckets then s.(requests := s.requests[g := Has(key, s.buckets[key])])
      else s.(buckets := s.buckets[key := made], occupied := s.occupied[made := 0],
          requests := s.requests[g := Has(key, made)])
    case Admit(g) =>
      var r := s.requests[g];
      s.(occupied := s.occupied[r.bucket := s.occupied[r.bucket] + 1],
          requests := s.requests[g := Serving(r.key, r.bucket)])
    case Reject(g) =>
      s.(requests := s.requests[g := Answered(429)])
    case Finish(g) =>
      var r := s.requests[g];
      s.(occupied := s.occupied[r.bucket := s.occupied[r.bucket] - 1], requests := s.requests[g := Answered(200)])
  }

  /** The forwarded requests holding a slot of bucket `b`. */
  function InFlight(requests: map<nat, Request>, b: nat): set<nat> {
    set g | g in requests && requests[g].Serving? && requests[g].bucket == b
  }

  /** Every request for a key that has a bucket has that key's one bucket. */
  ghost predicate OneBucketPerKey(s: State) {
    && (forall k :: k in s.buckets ==> s.buckets[k] in s.occupied)
    && (forall k, l :: k in s.buckets && l in s.buckets && s.buckets[k] == s.buckets[l] ==> k == l)
    && (forall g :: g in s.requests && (s.requests[g].Has? || s.requests[g].Serving?) ==>
          s.requests[g].key in s.buckets && s.buckets[s.requests[g].key] == s.requests[g].bucket)
  }

  /** A bucket's occupancy is the number of its requests in flight, and that is within the limit. */
  ghost predicate Counted(s: State) {
    forall b :: b in s.occupied ==> s.occupied[b] == |InFlight(s.requests, b)| && s.occupied[b] <= s.limit
  }

  ghost predicate Inv(s: State) { OneBucketPerKey(s) && Counted(s) }

  /** Moving a request that holds no slot leaves every bucket's requests in flight alone. */
  lemma SameInFlight(requests: map<nat, Request>, g: nat, r: Request)
    requires !r.Serving? && (g in requests ==> !requests[g].Serving?)
    ensures forall b :: InFlight(requests[g := r], b) == InFlight(requests, b)
  {
    forall b ensures InFlight(requests[g := r], b) == InFlight(requests, b) { }
  }

  lemma ForwardedCount(requests: map<nat, Request>, g: nat, key: string, c: nat)
    requires g in requests && !requests[g].Serving?
    ensures forall b :: |InFlight(requests[g := Serving(key, c)], b)| == |InFlight(requests, b)| + if b == c
        then 1 else 0
  {
    forall b ensures |InFlight(requests[g := Serving(key, c)], b)| == |InFlight(requests, b)| + if b == c
        then 1 else 0 {
      assert g !in InFlight(requests, b);
      assert InFlight(requests[g := Serving(key, c)], b) == InFlight(requests, b) + (if b == c then {g} else {});
    }
  }

  lemma FinishedCount(requests: map<nat, Request>, g: nat)
    requires g in requests && requests[g].Serving?
    ensures forall b ::
        |InFlight(requests[g := Answered(200)], b)| == |InFlight(requests, b)| - if b == requests[g].bucket
        then 1 else 0
  {
    forall b ensures |InFlight(requests[g := Answered(200)], b)| == |InFlight(requests, b)| - if b ==
        requests[g].bucket then 1 else 0 {
      assert b == requests[g].bucket ==> g in InFlight(requests, b);
      assert InFlight(requests[g := Answered(200)], b) ==
          InFlight(requests, b) - (if b == requests[g].bucket then {g} else {});
    }
  }

  lemma StepKeepsBuckets(s: State, step: Step)
    requires Inv(s) && Enabled(s, step)
    ensures OneBucketPerKey(Do(s, step))
  {
  }

  lemma StepKeepsCount(s: State, step: Step)
    requires Inv(s) && Enabled(s, step)
    ensures Counted(Do(s, step))
  {
    match step
    case Admit(g) => ForwardedCount(s.requests, g, s.requests[g].key, s.requests[g].bucket);
    case Finish(g) => FinishedCount(s.requests, g);
    case WriteLookup(g, made) =>
      SameInFlight(s.requests, g, Do(s, step).requests[g]);
      if s.requests[g].key !in s.buckets { assert InFlight(s.requests, made) == {}; }
    case _ => SameInFlight(s.requests, step.g, Do(s, step).requests[step.g]);
  }

  /** Who is answered and how. A request with a key is taken in and one without is answered 500; 429 is the answer of
      exactly the steps that find no slot, and 200 of exactly those that give one back; no step answers or moves
      another request. */
  lemma AnswersAreExact(s: State, step: Step, h: nat)
    requires Enabled(s, step)
    ensures h != step.g ==> (h in Do(s, step).requests <==> h in s.requests)
    ensures h != step.g && h in s.requests ==> Do(s, step).requests[h] == s.requests[h]
    ensures step.g in Do(s, step).requests
    ensures var now := Do(s, step).requests[step.g];
            && (step.Arrive? && step.key != "" ==> now == Entered(step.key))
            && (now == Answered(500) <==> step.Arrive? && step.key == "")
            && (now == Answered(429) <==> step.Reject?)
            && (now == Answered(200) <==> step.Finish?)
            && (now.Answered? ==> now.status in {200, 429, 500})
            && (now.Serving? <==> step.Admit?)
            && (step.ReadLookup? ==> (now.Has? <==> s.requests[step.g].key in s.buckets))
            && (step.WriteLookup? ==> now.Has? && Do(s, step).buckets[now.key] == now.bucket)
            && (!step.Arrive? && !now.Answered? ==> now.key == s.requests[step.g].key)
  {
  }

  // ---------------------------------------------------------------- whole runs

  ghost predicate CanRun(s: State, steps: seq<Step>)
    decreases |steps|
  {
    steps == [] || (Enabled(s, steps[0]) && CanRun(Do(s, steps[0]), steps[1..]))
  }

  ghost function After(s: State, steps: seq<Step>): State
    requires CanRun(s, steps)
    decreases |steps|
  {
    if steps == [] then s else After(Do(s, steps[0]), steps[1..])
  }

  lemma {:induction false} RunKeepsInv(s: State, steps: seq<Step>)
    requires Inv(s) && CanRun(s, steps)
    ensures Inv(After(s, steps)) && After(s, steps).limit == s.limit
    decreases |steps|
  {
    if steps != [] {
      StepKeepsBuckets(s, steps[0]);
      StepKeepsCount(s, steps[0]);
      RunKeepsInv(Do(s, steps[0]), steps[1..]);
    }
  }

  /** The limiter over every interleaving: requests for one key share one bucket; the requests of a key in
      flight are as many as its occupied slots and never more than the limit; a 429 is given only when
      exactly `limit` requests hold slots; and the deferred release never blocks. */
  lemma LimiterIsExact(limit: int, steps: seq<Step>, g: nat, h: nat)
    requires limit > 0 && CanRun(Provision(limit).value, steps)
    ensures var s := After(Provision(limit).value, steps);
            && (g in s.requests && h in s.requests && (s.requests[g].Has? || s.requests[g].Serving?)
                && (s.requests[h].Has? || s.requests[h].Serving?) ==>
                  (s.requests[g].key == s.requests[h].key <==> s.requests[g].bucket == s.requests[h].bucket))
            && (forall k :: k in s.buckets ==> s.buckets[k] in s.occupied)
            && (forall k :: k in s.buckets ==>
                  |InFlight(s.requests, s.buckets[k])| == s.occupied[s.buckets[k]] <= limit)
            && (Enabled(s, Reject(g)) ==> |InFlight(s.requests, s.requests[g].bucket)| == limit)
            && (g in s.requests && s.requests[g].Has? ==> Enabled(s, Admit(g)) || Enabled(s, Reject(g)))
            && (g in s.requests && s.requests[g].Serving? ==> Enabled(s, Finish(g)))
  {
    RunKeepsInv(Provision(limit).value, steps);
    var s := After(Provision(limit).value, steps);
    if g in s.requests && s.requests[g].Serving? {
      assert g in InFlight(s.requests, s.requests[g].bucket);
    }
  }
}
