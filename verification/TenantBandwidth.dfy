/** The pacing response writer (caddy-modules/tenant_bandwidth/main.go). The limiter and the wrapped
    writer are given by what they answer to their n-th call. */
module TenantBandwidth {
  newtype byte = x: int | 0 <= x < 256

  /** Sixteen chunks per burst window, at least one byte each. */
  function ChunkSizeFor(bps: int): (n: int)
    requires bps >= 1
    ensures 1 <= n <= bps
    ensures bps >= 16 ==> 16 * n <= bps < 16 * (n + 1)
  {
    var n := bps / 16;
    if n < 1 then 1 else n
  }

  function Total(ns: seq<int>): int
    decreases |ns|
  {
    if ns == [] then 0 else Total(ns[..|ns| - 1]) + ns[|ns| - 1]
  }

  /** The wrapped writer. It keeps what it takes; how much of its n-th argument that is, and whether it fails, is
      given by `answer`. */
  class Sink {
    const answer: (nat, seq<byte>) -> (int, bool)
    var taken: seq<byte>
    var calls: nat
    var failures: nat

    constructor (answer: (nat, seq<byte>) -> (int, bool))
      ensures this.answer == answer && taken == [] && calls == 0 && failures == 0
    {
      this.answer, taken, calls, failures := answer, [], 0, 0;
    }

    /** The io.Writer contract: never more than it was given, and an error whenever it is less. */
    ghost predicate Honest() {
      forall call, q :: var (n, failed) := answer(call, q); 0 <= n <= |q| && (n < |q| ==> failed)
    }

    method Write(q: seq<byte>) returns (n: int, failed: bool)
      requires Honest()
      modifies this
      ensures (n, failed) == answer(old(calls), q) && 0 <= n <= |q| && (n < |q| ==> failed)
      ensures taken == old(taken) + q[..n] && calls == old(calls) + 1
      ensures failures == old(failures) + if failed then 1 else 0
    {
      var r := answer(calls, q);
      n, failed := r.0, r.1;
      taken, calls, failures := taken + q[..n], calls + 1, failures + if failed then 1 else 0;
    }
  }

  /** The token bucket, known by its answers: it records what it is asked for and how often it refuses. */
  class Limiter {
    const grants: nat -> bool
    var asked: seq<int>
    var refusals: nat

    constructor (grants: nat -> bool)
      ensures this.grants == grants && asked == [] && refusals == 0
    {
      this.grants, asked, refusals := grants, [], 0;
    }

    method WaitN(n: int) returns (granted: bool)
      modifies this
      ensures granted == grants(|old(asked)|) && asked == old(asked) + [n]
      ensures refusals == old(refusals) + if granted then 0 else 1
    {
      granted := grants(|asked|);
      asked, refusals := asked + [n], refusals + if granted then 0 else 1;
    }
  }

  lemma OneMoreChunk(before: seq<byte>, p: seq<byte>, at: int, n: int, m: int)
    requires 0 <= m <= n && 0 <= at && at + n <= |p|
    ensures before + p[..at] + p[at..][..n][..m] == before + p[..at + m]
    ensures p[at..][n..] == p[at + n..]
  {
    assert p[..at] + p[at..][..n][..m] == p[..at + m];
  }

  lemma OneMoreRequest(asked: seq<int>, spent: seq<int>, n: int)
    ensures asked + spent + [n] == asked + (spent + [n]) && Total(spent + [n]) == Total(spent) + n
  {
    assert (spent + [n])[..|spent|] == spent;
  }

  class PacingWriter {
    const w: Sink
    const limiter: Limiter
    /** Rate and burst of the limiter. */
    const bps: int
    const chunkSize: int

    constructor (w: Sink, limiter: Limiter, bps: int)
      requires bps >= 1
      ensures this.w == w && this.limiter == limiter && this.bps == bps && chunkSize == ChunkSizeFor(bps)
    {
      this.w, this.limiter, this.bps, chunkSize := w, limiter, bps, ChunkSizeFor(bps);
    }

    /** Forwards `p` chunk by chunk after asking the limiter for each chunk: the wrapped writer takes exactly the prefix
        of the reported length, all of it unless one of the two said no; a refused chunk is not forwarded; every
        request fits the burst; and the tokens asked for, `spent`, exceed the bytes forwarded by at most one chunk. */
    method Write(p: seq<byte>) returns (written: int, failed: bool, ghost spent: seq<int>)
      requires bps >= 1 && chunkSize == ChunkSizeFor(bps) && w.Honest()
      modifies w, limiter
      ensures 0 <= written <= |p| && w.taken == old(w.taken) + p[..written]
      ensures failed <==> w.failures > old(w.failures) || limiter.refusals > old(limiter.refusals)
      ensures !failed ==> written == |p| && Total(spent) == |p|
      ensures limiter.refusals > old(limiter.refusals) ==> spent != [] && written == Total(spent[..|spent| - 1])
      ensures limiter.asked == old(limiter.asked) + spent
      ensures forall i :: 0 <= i < |spent| ==> 1 <= spent[i] <= ChunkSizeFor(bps) <= bps
      ensures written <= Total(spent) <= written + ChunkSizeFor(bps)
    {
      written, failed, spent := 0, false, [];
      var rest := p;
      while |rest| > 0
        invariant 0 <= written <= |p| && rest == p[written..] && w.taken == old(w.taken) + p[..written]
        invariant !failed && w.failures == old(w.failures) && limiter.refusals == old(limiter.refusals)
        invariant limiter.asked == old(limiter.asked) + spent && Total(spent) == written
        invariant forall i :: 0 <= i < |spent| ==> 1 <= spent[i] <= chunkSize
        decreases |rest|
      {
        var n := |rest|;
        if n > chunkSize {
          n := chunkSize;
        }
        var granted := limiter.WaitN(n);
        OneMoreRequest(old(limiter.asked), spent, n);
        spent := spent + [n];
        if !granted {
          return written, true, spent;
        }
        var m, broke := w.Write(rest[..n]);
        OneMoreChunk(old(w.taken), p, written, n, m);
        written := written + m;
        if broke {
          return written, true, spent;
        }
        rest := rest[n..];
      }
    }
  }
}
