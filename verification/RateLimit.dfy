/** The per-IP token buckets: what one bucket and the whole limiter do, as
    values, and then the classes that do it in place. Times are seconds on the
    process's monotonic clock; `f64` is modelled by `real`. */
module RateSpec {
  type Ip(==, !new) = nat

  datatype Limits = Limits(max: real, rate: real) {
    predicate Sensible() {
      max >= 0.0 && rate >= 0.0
    }
  }

  datatype Bucket = Bucket(tokens: real, last: real)

  function MinReal(a: real, b: real): real {
    if a < b then a else b
  }

  /** `Instant::duration_since` saturates at zero. */
  function Since(now: real, then_: real): real {
    if now < then_ then 0.0 else now - then_
  }

  function Fresh(l: Limits, now: real): Bucket {
    Bucket(l.max, now)
  }

  /** What a bucket earns between two instants. */
  function Accrued(l: Limits, from: real, to: real): real {
    Since(to, from) * l.rate
  }

  function Refilled(l: Limits, b: Bucket, now: real): Bucket {
    Bucket(MinReal(b.tokens + Accrued(l, b.last, now), l.max), now)
  }

  /** One request against one bucket: the bucket afterwards and the answer. */
  function Consumed(l: Limits, b: Bucket, now: real, cost: real): (Bucket, bool) {
    var r := Refilled(l, b, now);
    if r.tokens >= cost then (r.(tokens := r.tokens - cost), true) else (r, false)
  }

  type Table = map<Ip, Bucket>

  function Lookup(l: Limits, t: Table, ip: Ip, now: real): Bucket {
    if ip in t then t[ip] else Fresh(l, now)
  }

  /** One request against the limiter; an unknown IP starts with a full bucket. */
  function Requested(l: Limits, t: Table, ip: Ip, now: real, cost: real): (Table, bool) {
    var (b, ok) := Consumed(l, Lookup(l, t, ip, now), now, cost);
    (t[ip := b], ok)
  }

  /** `Duration::as_secs` drops the fraction before the comparison. */
  predicate Stale(b: Bucket, now: real, maxAge: nat) {
    Since(now, b.last).Floor >= maxAge
  }

  function Cleaned(t: Table, now: real, maxAge: nat): Table {
    map ip | ip in t && !Stale(t[ip], now, maxAge) :: t[ip]
  }

  /** The part of a cleanup done under the lock of one shard of the table. */
  function CleanedShard(t: Table, shard: set<Ip>, now: real, maxAge: nat): Table {
    map ip | ip in t && !(ip in shard && Stale(t[ip], now, maxAge)) :: t[ip]
  }
}

module RateLimiting {
  import opened RateSpec

  class TokenBucket {
    var tokens: real
    const maxTokens: real
    const refillRate: real
    var lastRefill: real

    function State(): Bucket
      reads this
    {
      Bucket(tokens, lastRefill)
    }

    constructor (maxTokens: real, refillRate: real, now: real)
      ensures this.maxTokens == maxTokens && this.refillRate == refillRate
      ensures State() == Fresh(Limits(maxTokens, refillRate), now)
    {
      this.tokens := maxTokens;
      this.maxTokens := maxTokens;
      this.refillRate := refillRate;
      this.lastRefill := now;
    }

    method Refill(now: real)
      modifies this
      ensures State() == Refilled(Limits(maxTokens, refillRate), old(State()), now)
    {
      var elapsed := if now < lastRefill then 0.0 else now - lastRefill;
      tokens := tokens + elapsed * refillRate;
      if maxTokens <= tokens {
        tokens := maxTokens;
      }
      lastRefill := now;
    }

    method TryConsume(now: real, cost: real) returns (allowed: bool)
      modifies this
      ensures (State(), allowed) == Consumed(Limits(maxTokens, refillRate), old(State()), now, cost)
    {
      Refill(now);
      if tokens >= cost {
        tokens := tokens - cost;
        allowed := true;
      } else {
        allowed := false;
      }
    }
  }

  class RateLimiter {
    var buckets: map<Ip, TokenBucket>
    const maxTokens: real
    const refillRate: real

    function Config(): Limits {
      Limits(maxTokens, refillRate)
    }

    /** Every IP has a bucket object of its own, with the limiter's parameters. */
    ghost predicate Valid()
      reads this
    {
      && (forall ip, jp :: ip in buckets && jp in buckets && ip != jp ==> buckets[ip] != buckets[jp])
      && (forall ip :: ip in buckets ==>
            buckets[ip].maxTokens == maxTokens && buckets[ip].refillRate == refillRate)
    }

    ghost function Contents(): Table
      reads this, buckets.Values
    {
      map ip | ip in buckets :: buckets[ip].State()
    }

    constructor (maxTokens: real, refillRate: real)
      ensures Valid() && Config() == Limits(maxTokens, refillRate)
      ensures Contents() == map[]
    {
      this.buckets := map[];
      this.maxTokens := maxTokens;
      this.refillRate := refillRate;
    }

    method IsAllowedCost(ip: Ip, now: real, cost: real) returns (allowed: bool)
      requires Valid()
      modifies this, buckets.Values
      ensures Valid() && fresh(buckets.Values - old(buckets.Values))
      ensures (Contents(), allowed) == Requested(Config(), old(Contents()), ip, now, cost)
    {
      if ip !in buckets {
        var b := new TokenBucket(maxTokens, refillRate, now);
        buckets := buckets[ip := b];
      }
      assert buckets[ip].State() == Lookup(Config(), old(Contents()), ip, now);
      allowed := buckets[ip].TryConsume(now, cost);
      assert Contents() == old(Contents())[ip := buckets[ip].State()];
    }

    method CleanupStale(now: real, maxAge: nat)
      requires Valid()
      modifies this
      ensures Valid() && buckets.Values <= old(buckets.Values)
      ensures Contents() == Cleaned(old(Contents()), now, maxAge)
    {
      buckets := map ip | ip in buckets && Since(now, buckets[ip].lastRefill).Floor < maxAge :: buckets[ip];
    }

    method TokensRemaining(ip: Ip) returns (balance: real)
      requires Valid()
      ensures balance == if ip in Contents() then Contents()[ip].tokens else maxTokens
    {
      balance := if ip in buckets then buckets[ip].tokens else maxTokens;
    }
  }
}
