/** The request counters of the prompt client. */
module PromptMetrics {

  datatype Counters = Counters(
    totalRequests: nat,
    cacheHits: nat,
    templateCacheHits: nat,
    remoteCalls: nat,
    dbFallbacks: nat,
    hardcodedFallbacks: nat,
    cacheWarms: nat,
    totalRemoteLatencyMs: int)

  const ZERO := Counters(0, 0, 0, 0, 0, 0, 0, 0)

  function CacheHit(c: Counters): Counters {
    c.(totalRequests := c.totalRequests + 1, cacheHits := c.cacheHits + 1)
  }

  function TemplateCacheHit(c: Counters): Counters {
    c.(totalRequests := c.totalRequests + 1, cacheHits := c.cacheHits + 1,
       templateCacheHits := c.templateCacheHits + 1)
  }

  function RemoteCall(c: Counters, latencyMs: int): Counters {
    c.(totalRequests := c.totalRequests + 1, remoteCalls := c.remoteCalls + 1,
       totalRemoteLatencyMs := c.totalRemoteLatencyMs + latencyMs)
  }

  function DbFallback(c: Counters): Counters {
    c.(totalRequests := c.totalRequests + 1, dbFallbacks := c.dbFallbacks + 1)
  }

  function HardcodedFallback(c: Counters): Counters {
    c.(totalRequests := c.totalRequests + 1, hardcodedFallbacks := c.hardcodedFallbacks + 1)
  }

  function CacheWarm(c: Counters): Counters {
    c.(cacheWarms := c.cacheWarms + 1)
  }

  /** Every request is booked under exactly one source; the remote-cache hits are a part of the hits. */
  predicate Conserved(c: Counters) {
    && c.totalRequests == c.cacheHits + c.remoteCalls + c.dbFallbacks + c.hardcodedFallbacks
    && c.templateCacheHits <= c.cacheHits
  }

  datatype Snapshot = Snapshot(
    counters: Counters,
    avgRemoteLatencyMs: int,
    circuitBreakerState: string,
    cacheHitRate: real,
    fallbackRate: real)

  /** `Math.round`: the nearest integer, halves upward. */
  function Round(x: real): int {
    (x + 0.5).Floor
  }

  function Ratio(part: nat, whole: nat): real {
    if whole > 0 then part as real / whole as real else 0.0
  }

  function TakeSnapshot(c: Counters, breaker: string): Snapshot {
    Snapshot(c,
             if c.remoteCalls > 0 then Round(c.totalRemoteLatencyMs as real / c.remoteCalls as real) else 0,
             breaker,
             Ratio(c.cacheHits, c.totalRequests),
             Ratio(c.dbFallbacks + c.hardcodedFallbacks, c.totalRequests))
  }

  lemma SumOfQuotients(x: real, y: real, w: real)
    requires w != 0.0
    ensures x / w + y / w == (x + y) / w
  {
  }

  lemma RatioAdds(a: nat, b: nat, whole: nat)
    ensures Ratio(a, whole) + Ratio(b, whole) == Ratio(a + b, whole)
  {
    if whole > 0 { SumOfQuotients(a as real, b as real, whole as real); }
  }

  lemma RatioNonNegative(part: nat, whole: nat)
    ensures Ratio(part, whole) >= 0.0
  {
    if whole > 0 { QuotientNonNegative(part as real, whole as real); }
  }

  lemma QuotientNonNegative(x: real, w: real)
    requires x >= 0.0 && w > 0.0
    ensures x / w >= 0.0
  {
  }

  lemma RatioOfWhole(whole: nat)
    ensures Ratio(whole, whole) == if whole > 0 then 1.0 else 0.0
  {
    if whole > 0 { QuotientOfItself(whole as real); }
  }

  lemma QuotientOfItself(w: real)
    requires w != 0.0
    ensures w / w == 1.0
  {
  }

  /** The two published rates leave exactly the share of remote calls. */
  lemma RatesAddUp(c: Counters, breaker: string)
    requires Conserved(c)
    ensures var s := TakeSnapshot(c, breaker);
            && 0.0 <= s.cacheHitRate && 0.0 <= s.fallbackRate
            && s.cacheHitRate + s.fallbackRate <= 1.0
            && (c.totalRequests > 0 ==>
                  s.cacheHitRate + s.fallbackRate == 1.0 - Ratio(c.remoteCalls, c.totalRequests))
            && IsShare(s.cacheHitRate, c.cacheHits, c.totalRequests)
            && IsShare(s.fallbackRate, c.dbFallbacks + c.hardcodedFallbacks, c.totalRequests)
  {
    var n := c.totalRequests;
    RatioAdds(c.cacheHits, c.dbFallbacks + c.hardcodedFallbacks, n);
    RatioAdds(c.cacheHits + (c.dbFallbacks + c.hardcodedFallbacks), c.remoteCalls, n);
    RatioOfWhole(n);
    RatioNonNegative(c.remoteCalls, n);
    RatioNonNegative(c.cacheHits, n);
    RatioNonNegative(c.dbFallbacks + c.hardcodedFallbacks, n);
    RatioOfTotal(c.cacheHits, n);
    RatioOfTotal(c.dbFallbacks + c.hardcodedFallbacks, n);
  }

  lemma QuotientTimes(x: real, w: real)
    requires w != 0.0
    ensures x / w * w == x
  {
  }

  lemma RatioOfTotal(part: nat, whole: nat)
    requires part <= whole
    ensures IsShare(Ratio(part, whole), part, whole)
  {
    if whole > 0 { QuotientTimes(part as real, whole as real); }
  }

  /** The integer nearest to the mean, halves upward. */
  predicate NearestMean(total: int, count: int, mean: int) {
    -count <= 2 * (total - count * mean) < count
  }

  /** The published latency is the mean over the remote calls, to the nearest millisecond; without any it is 0. */
  lemma LatencyIsNearest(c: Counters, breaker: string)
    ensures var s := TakeSnapshot(c, breaker);
            && s.counters == c && s.circuitBreakerState == breaker
            && (c.remoteCalls > 0 ==> NearestMean(c.totalRemoteLatencyMs, c.remoteCalls, s.avgRemoteLatencyMs))
            && (c.remoteCalls == 0 ==> s.avgRemoteLatencyMs == 0)
  {
    if c.remoteCalls > 0 { RoundedMean(c.totalRemoteLatencyMs, c.remoteCalls); }
  }

  lemma RoundedMean(total: int, count: nat)
    requires count > 0
    ensures NearestMean(total, count, Round(total as real / count as real))
  {
    var x := total as real / count as real;
    QuotientTimes(total as real, count as real);
    RoundedQuotient(total, count, x, Round(x));
  }

  lemma RoundedQuotient(total: int, count: nat, x: real, mean: int)
    requires count > 0 && x * count as real == total as real && mean as real <= x + 0.5 < mean as real + 1.0
    ensures NearestMean(total, count, mean)
  {
    var product := count * mean;
    CastProduct(mean, count);
    RoundedBounds(x, count as real, mean as real, product as real, total as real, count as real / 2.0);
    NearestFromReals(total, count, product, count as real / 2.0);
  }

  lemma PlusHalf(x: real, n: real, half: real)
    requires half + half == n
    ensures (x + 0.5) * n == x * n + half
  {
    Distributes(x, 0.5, n);
  }

  lemma PlusOne(x: real, n: real)
    ensures (x + 1.0) * n == x * n + n
  {
    Distributes(x, 1.0, n);
  }

  lemma NotAbove(x: real, n: real, mean: real, half: real)
    requires n > 0.0 && half + half == n && mean <= x + 0.5
    ensures mean * n <= x * n + half
  {
    calc {
      mean * n;
    <= { TimesMono(mean, x + 0.5, n); }
      (x + 0.5) * n;
    == { PlusHalf(x, n, half); }
      x * n + half;
    }
  }

  lemma CloseBelow(x: real, n: real, mean: real, half: real)
    requires n > 0.0 && half + half == n && x + 0.5 < mean + 1.0
    ensures x * n + half < mean * n + n
  {
    calc {
      x * n + half;
    == { PlusHalf(x, n, half); }
      (x + 0.5) * n;
    < { TimesStrict(x + 0.5, mean + 1.0, n); }
      (mean + 1.0) * n;
    == { PlusOne(mean, n); }
      mean * n + n;
    }
  }

  lemma RoundedBounds(x: real, n: real, mean: real, rounded: real, exact: real, half: real)
    requires n > 0.0 && mean <= x + 0.5 < mean + 1.0 && rounded == mean * n && exact == x * n && half + half == n
    ensures rounded <= exact + half < rounded + n
  {
    NotAbove(x, n, mean, half);
    CloseBelow(x, n, mean, half);
  }

  lemma NearestFromReals(total: int, count: int, product: int, half: real)
    requires half + half == count as real
    requires product as real <= total as real + half < product as real + count as real
    ensures -count <= 2 * (total - product) < count
  {
  }

  lemma TimesMono(x: real, y: real, n: real)
    requires x <= y && n > 0.0
    ensures x * n <= y * n
  {
    assert (y - x) * n >= 0.0;
  }

  lemma TimesStrict(x: real, y: real, n: real)
    requires x < y && n > 0.0
    ensures x * n < y * n
  {
    assert (y - x) * n > 0.0;
  }

  lemma Distributes(x: real, y: real, n: real)
    ensures (x + y) * n == x * n + y * n
  {
  }

  lemma {:induction false} CastProduct(a: int, n: nat)
    ensures a as real * n as real == (n * a) as real
  {
    if n > 0 {
      CastProduct(a, n - 1);
      assert n * a == (n - 1) * a + a;
      Distributes((n - 1) as real, 1.0, a as real);
    }
  }

  /** The rate is the share of the part in the whole. */
  predicate IsShare(rate: real, part: nat, whole: nat) {
    rate * whole as real == part as real
  }

  class MetricsCollector {
    var totalRequests: nat
    var cacheHits: nat
    var templateCacheHits: nat
    var remoteCalls: nat
    var dbFallbacks: nat
    var hardcodedFallbacks: nat
    var cacheWarms: nat
    var totalRemoteLatencyMs: int

    function Value(): Counters
      reads this
    {
      Counters(totalRequests, cacheHits, templateCacheHits, remoteCalls, dbFallbacks, hardcodedFallbacks,
               cacheWarms, totalRemoteLatencyMs)
    }

    constructor ()
      ensures Value() == ZERO && Conserved(Value())
    {
      totalRequests, cacheHits, templateCacheHits, remoteCalls := 0, 0, 0, 0;
      dbFallbacks, hardcodedFallbacks, cacheWarms, totalRemoteLatencyMs := 0, 0, 0, 0;
    }

    method RecordCacheHit()
      modifies this
      ensures Value() == CacheHit(old(Value()))
      ensures totalRequests == old(totalRequests) + 1 && cacheHits == old(cacheHits) + 1
      ensures old(Conserved(Value())) ==> Conserved(Value())
    {
      totalRequests := totalRequests + 1;
      cacheHits := cacheHits + 1;
    }

    method RecordTemplateCacheHit()
      modifies this
      ensures Value() == TemplateCacheHit(old(Value()))
      ensures totalRequests == old(totalRequests) + 1 && cacheHits == old(cacheHits) + 1
      ensures templateCacheHits == old(templateCacheHits) + 1
      ensures old(Conserved(Value())) ==> Conserved(Value())
    {
      totalRequests := totalRequests + 1;
      cacheHits := cacheHits + 1;
      templateCacheHits := templateCacheHits + 1;
    }

    method RecordRemoteCall(latencyMs: int)
      modifies this
      ensures Value() == RemoteCall(old(Value()), latencyMs)
      ensures totalRequests == old(totalRequests) + 1 && remoteCalls == old(remoteCalls) + 1
      ensures totalRemoteLatencyMs == old(totalRemoteLatencyMs) + latencyMs
      ensures old(Conserved(Value())) ==> Conserved(Value())
    {
      totalRequests := totalRequests + 1;
      remoteCalls := remoteCalls + 1;
      totalRemoteLatencyMs := totalRemoteLatencyMs + latencyMs;
    }

    method RecordDbFallback()
      modifies this
      ensures Value() == DbFallback(old(Value()))
      ensures totalRequests == old(totalRequests) + 1 && dbFallbacks == old(dbFallbacks) + 1
      ensures old(Conserved(Value())) ==> Conserved(Value())
    {
      totalRequests := totalRequests + 1;
      dbFallbacks := dbFallbacks + 1;
    }

    method RecordHardcodedFallback()
      modifies this
      ensures Value() == HardcodedFallback(old(Value()))
      ensures totalRequests == old(totalRequests) + 1 && hardcodedFallbacks == old(hardcodedFallbacks) + 1
      ensures old(Conserved(Value())) ==> Conserved(Value())
    {
      totalRequests := totalRequests + 1;
      hardcodedFallbacks := hardcodedFallbacks + 1;
    }

    method RecordCacheWarm()
      modifies this
      ensures Value() == CacheWarm(old(Value()))
      ensures cacheWarms == old(cacheWarms) + 1
      ensures old(Conserved(Value())) ==> Conserved(Value())
    {
      cacheWarms := cacheWarms + 1;
    }

    method GetMetrics(breaker: string) returns (s: Snapshot)
      ensures s == TakeSnapshot(Value(), breaker)
      ensures Conserved(Value()) ==> s.cacheHitRate + s.fallbackRate <= 1.0
      ensures Conserved(Value()) ==> IsShare(s.cacheHitRate, cacheHits, totalRequests)
      ensures Conserved(Value()) ==> IsShare(s.fallbackRate, dbFallbacks + hardcodedFallbacks, totalRequests)
      ensures remoteCalls > 0 ==> NearestMean(totalRemoteLatencyMs, remoteCalls, s.avgRemoteLatencyMs)
    {
      s := TakeSnapshot(Value(), breaker);
      LatencyIsNearest(Value(), breaker);
      if Conserved(Value()) {
        RatesAddUp(Value(), breaker);
      }
    }

    method Reset()
      modifies this
      ensures Value() == ZERO && Conserved(Value())
    {
      totalRequests, cacheHits, templateCacheHits, remoteCalls := 0, 0, 0, 0;
      dbFallbacks, hardcodedFallbacks, cacheWarms, totalRemoteLatencyMs := 0, 0, 0, 0;
    }
  }
}
