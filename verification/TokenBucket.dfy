/**
 * The per-tenant token bucket that limits outbound Jira calls: one atomic
 * script step on a Redis hash with a time to live.
 *
 * Times are whole milliseconds; token counts are exact reals. Redis may drop a
 * key at any moment from its expiry on, or keep it as long as it likes.
 */
module TokenBucket {
  import opened Basics

  datatype Config = Config(capacity: real, windowMs: int)

  const DEFAULT_CONFIG := Config(10.0, 1_000)

  // What the script computes with: a window of some milliseconds.
  predicate Computable(config: Config) {
    config.windowMs >= 1
  }

  // A bucket that can hold a whole token.
  predicate Usable(config: Config) {
    config.capacity >= 1.0 && config.windowMs >= 1
  }

  datatype Bucket = Absent | Present(tokens: real, lastRefill: int, expiresAt: int)

  // The milliseconds to wait; None is NaN, for a bucket that never refills.
  datatype RateLimitResult = RateLimitResult(allowed: bool, retryAfterMs: Option<int>)

  function Min(a: real, b: real): real {
    if a <= b then a else b
  }

  function Ceil(x: real): int {
    -((-x).Floor)
  }

  function RefillPerMs(config: Config): real
    requires Computable(config)
  {
    config.capacity / config.windowMs as real
  }

  // The tokens found in a bucket at a time, after refilling at a rate.
  function LevelAt(capacity: real, rate: real, bucket: Bucket, now: int): real {
    match bucket
    case Absent => capacity
    case Present(tokens, lastRefill, _) => Min(capacity, tokens + (now - lastRefill) as real * rate)
  }

  function Level(config: Config, bucket: Bucket, now: int): real
    requires Computable(config)
  {
    LevelAt(config.capacity, RefillPerMs(config), bucket, now)
  }

  // math.ceil((1 - level) / rate), where dividing by zero gives no number of milliseconds.
  function WaitFor(level: real, rate: real): Option<int> {
    if rate == 0.0 then None else Some(Ceil((1.0 - level) / rate))
  }

  function TtlFor(capacity: real, rate: real, windowMs: int): int
    requires rate != 0.0
  {
    Ceil(capacity / rate) + windowMs
  }

  function Ttl(config: Config): int
    requires Usable(config)
  {
    RateIsPositive(config);
    TtlFor(config.capacity, RefillPerMs(config), config.windowMs)
  }

  lemma RateIsPositive(config: Config)
    requires Usable(config)
    ensures RefillPerMs(config) > 0.0
  {
  }

  // What a call at a time answers, and the bucket it leaves.
  function Decide(config: Config, bucket: Bucket, now: int): RateLimitResult
    requires Computable(config)
  {
    var level := Level(config, bucket, now);
    if level < 1.0 then RateLimitResult(false, WaitFor(level, RefillPerMs(config))) else RateLimitResult(true, Some(0))
  }

  function AfterCall(config: Config, bucket: Bucket, now: int): Bucket
    requires Computable(config)
  {
    if Decide(config, bucket, now).allowed then Present(Level(config, bucket, now) - 1.0, now, now + Ttl(config))
    else bucket
  }

  // A bucket that cannot hold a whole token allows nothing, whatever it contains.
  lemma SmallBucketAllowsNothing(config: Config, bucket: Bucket, now: int)
    requires Computable(config)
    ensures Decide(config, bucket, now).allowed ==> Usable(config)
    ensures config.capacity == 0.0 ==> Decide(config, bucket, now) == RateLimitResult(false, None)
  {
  }

  /** The buckets of all tenants, as Redis keeps them. */
  class JiraRateLimiter {
    var buckets: map<string, Bucket>

    constructor ()
      ensures buckets == map[]
    {
      buckets := map[];
    }

    function BucketOf(tenantId: string): Bucket
      reads this
    {
      if tenantId in buckets then buckets[tenantId] else Absent
    }

    // The script, statement by statement.
    method TryConsume(tenantId: string, now: int, config: Config := DEFAULT_CONFIG) returns (result: RateLimitResult)
      requires Computable(config)
      modifies this
      ensures result == Decide(config, old(BucketOf(tenantId)), now)
      ensures BucketOf(tenantId) == AfterCall(config, old(BucketOf(tenantId)), now)
      ensures !result.allowed ==> buckets == old(buckets)
      ensures forall other :: other != tenantId ==> BucketOf(other) == old(BucketOf(other))
    {
      var capacity := config.capacity;
      var tokens, lastRefill := capacity, now;
      if tenantId in buckets && buckets[tenantId].Present? {
        tokens := buckets[tenantId].tokens;
        lastRefill := buckets[tenantId].lastRefill;
      }
      var elapsed := now - lastRefill;
      var refillPerMs := RefillPerMs(config);
      var newTokens := Min(capacity, tokens + elapsed as real * refillPerMs);
      assert newTokens == Level(config, BucketOf(tenantId), now);
      if newTokens < 1.0 {
        return RateLimitResult(false, WaitFor(newTokens, refillPerMs));
      }
      RateIsPositive(config);
      var ttlMs := TtlFor(capacity, refillPerMs, config.windowMs);
      buckets := buckets[tenantId := Present(newTokens - 1.0, now, now + ttlMs)];
      result := RateLimitResult(true, Some(0));
    }
  }

  // ------------------------------------------------------------------------ runs

  datatype Step = Call(now: int) | Expiry(now: int)

  predicate MayExpire(bucket: Bucket, now: int) {
    bucket.Present? && bucket.expiresAt <= now
  }

  function Next(config: Config, bucket: Bucket, step: Step): Bucket
    requires Usable(config)
  {
    match step
    case Call(now) => AfterCall(config, bucket, now)
    case Expiry(_) => Absent
  }

  // Times never decrease from `since` on, and a key is only dropped once it may be.
  predicate Run(config: Config, bucket: Bucket, since: int, steps: seq<Step>)
    requires Usable(config)
    decreases |steps|
  {
    steps == [] ||
    (since <= steps[0].now &&
     (steps[0].Expiry? ==> MayExpire(bucket, steps[0].now)) &&
     Run(config, Next(config, bucket, steps[0]), steps[0].now, steps[1..]))
  }

  function After(config: Config, bucket: Bucket, steps: seq<Step>): Bucket
    requires Usable(config)
    decreases |steps|
  {
    if steps == [] then bucket else After(config, Next(config, bucket, steps[0]), steps[1..])
  }

  // The answers given to the calls of a run, in order.
  function Answers(config: Config, bucket: Bucket, steps: seq<Step>): seq<RateLimitResult>
    requires Usable(config)
    decreases |steps|
  {
    if steps == [] then []
    else (if steps[0].Call? then [Decide(config, bucket, steps[0].now)] else []) +
         Answers(config, Next(config, bucket, steps[0]), steps[1..])
  }

  // How many calls are allowed between two times, both included.
  function AllowedWithin(config: Config, bucket: Bucket, steps: seq<Step>, from: int, to: int): nat
    requires Usable(config)
    decreases |steps|
  {
    if steps == [] then 0
    else
      var step := steps[0];
      var hit := step.Call? && Decide(config, bucket, step.now).allowed && from <= step.now <= to;
      (if hit then 1 else 0) + AllowedWithin(config, Next(config, bucket, step), steps[1..], from, to)
  }

  // --------------------------------------------------------------- the invariant

  // A bucket the script has written by a time (or none): it never expires before
  // it would be full again.
  predicate Sound(config: Config, bucket: Bucket, now: int) {
    bucket.Present? ==>
      bucket.tokens >= 0.0 && bucket.lastRefill <= now && bucket.expiresAt >= bucket.lastRefill + config.windowMs
  }

  lemma RefillFacts(config: Config)
    requires Usable(config)
    ensures RefillPerMs(config) > 0.0
    ensures RefillPerMs(config) * config.windowMs as real == config.capacity
    ensures Ttl(config) == 2 * config.windowMs
  {
    var c, w := config.capacity, config.windowMs as real;
    assert c / w > 0.0;
    assert (c / w) * w == c;
    QuotientIs(c, RefillPerMs(config), w);
  }

  lemma QuotientIs(a: real, b: real, q: real)
    requires b > 0.0 && b * q == a
    ensures a / b == q
  {
  }

  lemma ScaleUp(a: int, b: int, r: real)
    requires a <= b && r > 0.0
    ensures a as real * r <= b as real * r
  {
  }

  // Once a key may be dropped, dropping it changes nothing: it is full again.
  lemma FullOnceExpirable(config: Config, bucket: Bucket, now: int)
    requires Usable(config) && bucket.Present? && Sound(config, bucket, bucket.lastRefill) && bucket.expiresAt <= now
    ensures Level(config, bucket, now) == config.capacity
  {
    RefillFacts(config);
    ScaleUp(config.windowMs, now - bucket.lastRefill, RefillPerMs(config));
  }

  lemma NextIsSound(config: Config, bucket: Bucket, step: Step)
    requires Usable(config)
    requires Sound(config, bucket, step.now) || Next(config, bucket, step) != bucket
    ensures Sound(config, Next(config, bucket, step), step.now)
  {
    RefillFacts(config);
  }

  lemma LevelGrows(config: Config, bucket: Bucket, s: int, t: int)
    requires Usable(config) && s <= t
    ensures Level(config, bucket, s) <= Level(config, bucket, t)
    ensures Level(config, bucket, t) <= Level(config, bucket, s) + (t - s) as real * RefillPerMs(config)
  {
    RefillFacts(config);
    LevelAtGrows(config.capacity, RefillPerMs(config), bucket, s, t);
  }

  lemma LevelAtGrows(capacity: real, rate: real, bucket: Bucket, s: int, t: int)
    requires rate > 0.0 && s <= t
    ensures LevelAt(capacity, rate, bucket, s) <= LevelAt(capacity, rate, bucket, t)
    ensures LevelAt(capacity, rate, bucket, t) <= LevelAt(capacity, rate, bucket, s) + (t - s) as real * rate
  {
    ScaleUp(0, t - s, rate);
    if bucket.Present? {
      var a, b := s - bucket.lastRefill, t - bucket.lastRefill;
      ScaleUp(a, b, rate);
      assert b as real * rate == a as real * rate + (t - s) as real * rate;
    }
  }

  lemma LevelNotNegative(config: Config, bucket: Bucket, now: int)
    requires Usable(config) && Sound(config, bucket, now)
    ensures Level(config, bucket, now) >= 0.0
  {
    RefillFacts(config);
    if bucket.Present? {
      ScaleUp(0, now - bucket.lastRefill, RefillPerMs(config));
    }
  }

  // ------------------------------------------------------------ the window bound

  lemma LevelAfterCall(config: Config, bucket: Bucket, now: int)
    requires Usable(config)
    ensures Level(config, AfterCall(config, bucket, now), now)
         == Level(config, bucket, now) - (if Decide(config, bucket, now).allowed then 1.0 else 0.0)
  {
  }

  lemma {:induction false} NoneAfter(config: Config, bucket: Bucket, since: int, steps: seq<Step>, from: int, to: int)
    requires Usable(config) && Run(config, bucket, since, steps) && to < since
    ensures AllowedWithin(config, bucket, steps, from, to) == 0
    decreases |steps|
  {
    if steps != [] {
      NoneAfter(config, Next(config, bucket, steps[0]), steps[0].now, steps[1..], from, to);
    }
  }

  function Refilled(config: Config, ms: int): real
    requires Usable(config)
  {
    ms as real * RefillPerMs(config)
  }

  // The tokens a sound bucket can still give out until a time.
  function Potential(config: Config, bucket: Bucket, now: int, to: int): real
    requires Usable(config)
  {
    Level(config, bucket, now) + Refilled(config, to - now)
  }

  predicate Hits(config: Config, bucket: Bucket, step: Step)
    requires Usable(config)
  {
    step.Call? && Decide(config, bucket, step.now).allowed
  }

  // A step spends what it hits; refilling and expiry never add to the potential.
  lemma StepSpends(config: Config, bucket: Bucket, since: int, step: Step, to: int)
    requires Usable(config) && Sound(config, bucket, since) && since <= step.now
    requires step.Expiry? ==> MayExpire(bucket, step.now)
    ensures Potential(config, Next(config, bucket, step), step.now, to) +
            (if Hits(config, bucket, step) then 1.0 else 0.0)
         <= Potential(config, bucket, since, to)
  {
    LaterPotential(config, bucket, since, step.now, to);
    if step.Expiry? {
      FullOnceExpirable(config, bucket, step.now);
    } else {
      LevelAfterCall(config, bucket, step.now);
    }
  }

  lemma LaterPotential(config: Config, bucket: Bucket, s: int, t: int, to: int)
    requires Usable(config) && s <= t
    ensures Potential(config, bucket, t, to) <= Potential(config, bucket, s, to)
  {
    LevelGrows(config, bucket, s, t);
    Distributes(t - s, to - t, RefillPerMs(config));
  }

  lemma Distributes(a: int, b: int, rate: real)
    ensures (a + b) as real * rate == a as real * rate + b as real * rate
  {
  }

  lemma PotentialBounds(config: Config, bucket: Bucket, now: int, to: int)
    requires Usable(config) && now <= to
    ensures Potential(config, bucket, now, to) <= config.capacity + Refilled(config, to - now)
    ensures Sound(config, bucket, now) ==> Potential(config, bucket, now, to) >= 0.0
  {
    RefillFacts(config);
    ScaleUp(0, to - now, RefillPerMs(config));
    if Sound(config, bucket, now) {
      LevelNotNegative(config, bucket, now);
    }
  }

  // From a sound bucket: no more calls than the tokens present plus the refill.
  lemma {:induction false} BoundFromSound(config: Config, bucket: Bucket, since: int, steps: seq<Step>, from: int,
                                          to: int)
    requires Usable(config) && Sound(config, bucket, since) && Run(config, bucket, since, steps)
    requires from <= since <= to
    ensures AllowedWithin(config, bucket, steps, from, to) as real <= Potential(config, bucket, since, to)
    decreases |steps|
  {
    PotentialBounds(config, bucket, since, to);
    if steps != [] {
      var step := steps[0];
      var next := Next(config, bucket, step);
      if step.now > to {
        NoneAfter(config, next, step.now, steps[1..], from, to);
      } else {
        NextIsSound(config, bucket, step);
        BoundFromSound(config, next, step.now, steps[1..], from, to);
        StepSpends(config, bucket, since, step, to);
      }
    }
  }

  // In any interval of a run, from any starting bucket, at most
  // capacity + length * capacity / window calls are allowed.
  lemma {:induction false} WindowBound(config: Config, bucket: Bucket, since: int, steps: seq<Step>, from: int, to: int)
    requires Usable(config) && Run(config, bucket, since, steps) && from <= to
    ensures AllowedWithin(config, bucket, steps, from, to) as real
         <= config.capacity + Refilled(config, to - from)
    decreases |steps|
  {
    PotentialBounds(config, Absent, from, to);
    if steps != [] {
      var step := steps[0];
      var next := Next(config, bucket, step);
      if Hits(config, bucket, step) && from <= step.now <= to {
        NextIsSound(config, bucket, step);
        BoundFromSound(config, next, step.now, steps[1..], from, to);
        FirstHit(config, bucket, step, from, to);
      } else {
        WindowBound(config, next, step.now, steps[1..], from, to);
      }
    }
  }

  lemma FirstHit(config: Config, bucket: Bucket, step: Step, from: int, to: int)
    requires Usable(config) && from <= step.now <= to && Hits(config, bucket, step)
    ensures Potential(config, Next(config, bucket, step), step.now, to) + 1.0
         <= config.capacity + Refilled(config, to - from)
  {
    RefillFacts(config);
    LevelAfterCall(config, bucket, step.now);
    ScaleUp(to - step.now, to - from, RefillPerMs(config));
  }

  // --------------------------------------------------------- expiry is invisible

  function CallsOnly(steps: seq<Step>): seq<Step> {
    if steps == [] then []
    else (if steps[0].Call? then [steps[0]] else []) + CallsOnly(steps[1..])
  }

  // The same level now, and so at every later time.
  ghost predicate Alike(config: Config, a: Bucket, b: Bucket, now: int)
    requires Usable(config)
  {
    forall t :: now <= t ==> Level(config, a, t) == Level(config, b, t)
  }

  lemma ExpiryIsAlike(config: Config, bucket: Bucket, now: int)
    requires Usable(config) && Sound(config, bucket, now) && MayExpire(bucket, now)
    ensures Alike(config, bucket, Absent, now)
  {
    forall t | now <= t
      ensures Level(config, bucket, t) == Level(config, Absent, t)
    {
      FullOnceExpirable(config, bucket, t);
    }
  }

  // Keys dropped at any permitted moments: every answer, retry hints included, is
  // the one given when nothing is ever dropped.
  lemma {:induction false} ExpiryInvisible(config: Config, a: Bucket, b: Bucket, since: int, steps: seq<Step>)
    requires Usable(config) && Sound(config, a, since) && Run(config, a, since, steps) && Alike(config, a, b, since)
    ensures Answers(config, a, steps) == Answers(config, b, CallsOnly(steps))
    decreases |steps|
  {
    if steps != [] {
      var step := steps[0];
      var nextA := Next(config, a, step);
      NextIsSound(config, a, step);
      assert Level(config, a, step.now) == Level(config, b, step.now);
      if step.Expiry? {
        ExpiryIsAlike(config, a, step.now);
        ExpiryInvisible(config, nextA, b, step.now, steps[1..]);
        assert CallsOnly(steps) == CallsOnly(steps[1..]);
      } else {
        ExpiryInvisible(config, nextA, Next(config, b, step), step.now, steps[1..]);
        assert CallsOnly(steps) == [step] + CallsOnly(steps[1..]);
        assert CallsOnly(steps)[1..] == CallsOnly(steps[1..]);
      }
    }
  }

  // So two schedules of the same calls, with different keys dropped, answer alike.
  lemma SchedulesAgree(config: Config, bucket: Bucket, since: int, steps: seq<Step>, others: seq<Step>)
    requires Usable(config) && Sound(config, bucket, since) && CallsOnly(steps) == CallsOnly(others)
    requires Run(config, bucket, since, steps) && Run(config, bucket, since, others)
    ensures Answers(config, bucket, steps) == Answers(config, bucket, others)
  {
    ExpiryInvisible(config, bucket, bucket, since, steps);
    ExpiryInvisible(config, bucket, bucket, since, others);
  }

  // ----------------------------------------------------- the retry hint is exact

  // The hint of a denial.
  function Wait(config: Config, bucket: Bucket, now: int): int
    requires Usable(config) && !Decide(config, bucket, now).allowed
  {
    RateIsPositive(config);
    Decide(config, bucket, now).retryAfterMs.value
  }

  // The level first reaches one token exactly when the hinted wait is over.
  lemma WaitIsExact(config: Config, bucket: Bucket, now: int, t: int)
    requires Usable(config) && !Decide(config, bucket, now).allowed
    ensures Decide(config, bucket, t).allowed <==> t >= now + Wait(config, bucket, now)
  {
    RefillFacts(config);
    DueAt(config.capacity, RefillPerMs(config), bucket, now, t);
  }

  lemma DueAt(capacity: real, rate: real, bucket: Bucket, now: int, t: int)
    requires capacity >= 1.0 && rate > 0.0 && LevelAt(capacity, rate, bucket, now) < 1.0
    ensures LevelAt(capacity, rate, bucket, t) >= 1.0 <==>
            t >= now + Ceil((1.0 - LevelAt(capacity, rate, bucket, now)) / rate)
  {
    var elapsed, d := now - bucket.lastRefill, t - now;
    assert elapsed + d == t - bucket.lastRefill;
    DueArithmetic(LevelAt(capacity, rate, bucket, now), bucket.tokens, elapsed, d, rate);
  }

  // Tokens that refill at a rate reach one after the rounded-up quotient of what is missing.
  lemma DueArithmetic(level: real, tokens: real, elapsed: int, d: int, rate: real)
    requires rate > 0.0 && level == tokens + elapsed as real * rate
    ensures tokens + (elapsed + d) as real * rate >= 1.0 <==> d >= Ceil((1.0 - level) / rate)
  {
    var need := (1.0 - level) / rate;
    assert need * rate == 1.0 - level;
    assert (elapsed + d) as real * rate == elapsed as real * rate + d as real * rate;
    CeilIsLeast(need, d);
    if d as real >= need {
      ScaleReal(need, d as real, rate);
    } else {
      ScaleRealStrict(d as real, need, rate);
    }
  }

  lemma CeilIsLeast(x: real, d: int)
    ensures d >= Ceil(x) <==> d as real >= x
  {
  }

  lemma ScaleReal(a: real, b: real, r: real)
    requires a <= b && r > 0.0
    ensures a * r <= b * r
  {
  }

  lemma ScaleRealStrict(a: real, b: real, r: real)
    requires a < b && r > 0.0
    ensures a * r < b * r
  {
  }

  predicate NoSuccess(answers: seq<RateLimitResult>) {
    forall i :: 0 <= i < |answers| ==> !answers[i].allowed
  }

  // Without a success in between, whatever else happens, the level stays alike.
  lemma {:induction false} DenialsChangeNothing(config: Config, bucket: Bucket, since: int, steps: seq<Step>,
                                                until: int)
    requires Usable(config) && Sound(config, bucket, since) && Run(config, bucket, since, steps)
    requires NoSuccess(Answers(config, bucket, steps))
    requires since <= until && forall i :: 0 <= i < |steps| ==> steps[i].now <= until
    ensures Level(config, After(config, bucket, steps), until) == Level(config, bucket, until)
    decreases |steps|
  {
    if steps != [] {
      var step := steps[0];
      var next := Next(config, bucket, step);
      NextIsSound(config, bucket, step);
      var rest := Answers(config, next, steps[1..]);
      if step.Call? {
        assert Answers(config, bucket, steps)[0] == Decide(config, bucket, step.now);
        assert forall i :: 0 <= i < |rest| ==> rest[i] == Answers(config, bucket, steps)[i + 1];
      } else {
        ExpiryIsAlike(config, bucket, step.now);
        assert Level(config, bucket, until) == Level(config, Absent, until);
        assert rest == Answers(config, bucket, steps);
      }
      DenialsChangeNothing(config, next, step.now, steps[1..], until);
    }
  }

  // After a denial, with no success in between (dropped keys and further denials
  // allowed), a call is allowed exactly from now + retryAfterMs on.
  lemma RetryHintExact(config: Config, bucket: Bucket, now: int, between: seq<Step>, t: int)
    requires Usable(config) && Sound(config, bucket, now) && !Decide(config, bucket, now).allowed
    requires Run(config, bucket, now, between + [Call(t)]) && NoSuccess(Answers(config, bucket, between))
    ensures Decide(config, After(config, bucket, between), t).allowed <==>
            t >= now + Wait(config, bucket, now)
  {
    RunOrdered(config, bucket, now, between, t);
    DenialsChangeNothing(config, bucket, now, between, t);
    WaitIsExact(config, bucket, now, t);
  }

  lemma {:induction false} RunOrdered(config: Config, bucket: Bucket, since: int, steps: seq<Step>, t: int)
    requires Usable(config) && Run(config, bucket, since, steps + [Call(t)])
    ensures Run(config, bucket, since, steps) && since <= t
    ensures forall i :: 0 <= i < |steps| ==> steps[i].now <= t
    decreases |steps|
  {
    if steps != [] {
      assert (steps + [Call(t)])[1..] == steps[1..] + [Call(t)];
      RunOrdered(config, Next(config, bucket, steps[0]), steps[0].now, steps[1..], t);
    }
  }

  // Until then nothing succeeds: every call before now + retryAfterMs is denied,
  // and each such denial hints at the same moment.
  lemma {:induction false} NoEarlySuccess(config: Config, bucket: Bucket, since: int, steps: seq<Step>, due: int)
    requires Usable(config) && Sound(config, bucket, since) && Run(config, bucket, since, steps)
    requires !Decide(config, bucket, since).allowed && due == since + Wait(config, bucket, since)
    requires forall i :: 0 <= i < |steps| ==> steps[i].now < due
    ensures NoSuccess(Answers(config, bucket, steps))
    decreases |steps|
  {
    if steps != [] {
      var step := steps[0];
      WaitIsExact(config, bucket, since, step.now);
      if step.Expiry? {
        FullOnceExpirable(config, bucket, step.now);
        assert false;
      }
      NextIsSound(config, bucket, step);
      SameDue(config, bucket, since, step.now);
      NoEarlySuccess(config, bucket, step.now, steps[1..], due);
    }
  }

  lemma SameDue(config: Config, bucket: Bucket, a: int, b: int)
    requires Usable(config) && !Decide(config, bucket, a).allowed && !Decide(config, bucket, b).allowed
    ensures a + Wait(config, bucket, a) == b + Wait(config, bucket, b)
  {
    var dueA, dueB := a + Wait(config, bucket, a), b + Wait(config, bucket, b);
    WaitIsExact(config, bucket, a, dueA);
    WaitIsExact(config, bucket, b, dueA);
    WaitIsExact(config, bucket, a, dueB);
    WaitIsExact(config, bucket, b, dueB);
  }

  // Every bucket a run reaches from an absent key is sound.
  lemma {:induction false} ReachedIsSound(config: Config, bucket: Bucket, since: int, steps: seq<Step>, now: int)
    requires Usable(config) && Sound(config, bucket, since) && Run(config, bucket, since, steps)
    requires since <= now && forall i :: 0 <= i < |steps| ==> steps[i].now <= now
    ensures Sound(config, After(config, bucket, steps), now)
    decreases |steps|
  {
    if steps != [] {
      NextIsSound(config, bucket, steps[0]);
      ReachedIsSound(config, Next(config, bucket, steps[0]), steps[0].now, steps[1..], now);
    }
  }
}
