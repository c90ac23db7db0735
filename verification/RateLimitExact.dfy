/**
 * The limiter is as generous as its bound permits: a call is allowed exactly when no
 * interval that ends with it would then hold more calls than the bucket has room for.
 */
module RateLimitExact {
  import opened TokenBucket

  // The time of the last step of a run.
  function EndOf(since: int, steps: seq<Step>): int {
    if steps == [] then since else steps[|steps| - 1].now
  }

  // From a time on, the level is what a bucket that was full at `from` and gave out k
  // tokens since would have.
  ghost predicate IsLevel(config: Config, bucket: Bucket, now: int, from: int, k: nat)
    requires Usable(config)
  {
    forall t :: now <= t ==>
      Level(config, bucket, t) == Min(config.capacity, config.capacity + Refilled(config, t - from) - k as real)
  }

  lemma RefilledGrows(config: Config, a: int, b: int)
    requires Usable(config) && a <= b
    ensures Refilled(config, a) <= Refilled(config, b)
  {
    RefillFacts(config);
    ScaleUp(a, b, RefillPerMs(config));
  }

  lemma RefilledAdds(config: Config, a: int, b: int)
    requires Usable(config)
    ensures Refilled(config, a + b) == Refilled(config, a) + Refilled(config, b)
  {
    Distributes(a, b, RefillPerMs(config));
  }

  // The level of a bucket just written, at every later time.
  lemma WrittenLevel(config: Config, bucket: Bucket, now: int, t: int)
    requires Usable(config) && Decide(config, bucket, now).allowed && now <= t
    ensures Level(config, AfterCall(config, bucket, now), t) ==
            Min(config.capacity, Level(config, bucket, now) - 1.0 + Refilled(config, t - now))
  {
  }

  lemma HitKeepsLevel(config: Config, bucket: Bucket, now: int, from: int, k: nat) returns (f: int, m: nat)
    requires Usable(config) && IsLevel(config, bucket, now, from, k) && Decide(config, bucket, now).allowed
    ensures IsLevel(config, AfterCall(config, bucket, now), now, f, m)
    ensures (f == from && m == k + 1) || (f == now && m == 1)
  {
    var level := Level(config, bucket, now);
    if level == config.capacity {
      f, m := now, 1;
    } else {
      f, m := from, k + 1;
    }
    forall t | now <= t
      ensures Level(config, AfterCall(config, bucket, now), t) ==
              Min(config.capacity, config.capacity + Refilled(config, t - f) - m as real)
    {
      WrittenLevel(config, bucket, now, t);
      RefilledAdds(config, now - from, t - now);
      RefilledGrows(config, 0, t - now);
    }
  }

  lemma ExpiryKeepsLevel(config: Config, bucket: Bucket, now: int, from: int, k: nat)
    requires Usable(config) && Sound(config, bucket, now) && MayExpire(bucket, now)
    requires IsLevel(config, bucket, now, from, k)
    ensures IsLevel(config, Absent, now, from, k)
  {
    ExpiryIsAlike(config, bucket, now);
    forall t | now <= t
      ensures Level(config, Absent, t) ==
              Min(config.capacity, config.capacity + Refilled(config, t - from) - k as real)
    {
      assert Level(config, bucket, t) == Level(config, Absent, t);
    }
  }

  lemma LaterLevel(config: Config, bucket: Bucket, s: int, t: int, from: int, k: nat)
    requires Usable(config) && IsLevel(config, bucket, s, from, k) && s <= t
    ensures IsLevel(config, bucket, t, from, k)
  {
  }

  // In a run the level stays of this form; the tokens given out since `f` were hits of the
  // run, but for those of before when the bucket was never full again.
  lemma {:induction false} RunKeepsLevel(config: Config, bucket: Bucket, since: int, steps: seq<Step>, from: int,
                                         k: nat, to: int)
    returns (f: int, m: nat, wasFull: bool)
    requires Usable(config) && Sound(config, bucket, since) && Run(config, bucket, since, steps)
    requires IsLevel(config, bucket, since, from, k) && from <= since && EndOf(since, steps) <= to
    ensures IsLevel(config, After(config, bucket, steps), EndOf(since, steps), f, m)
    ensures from <= f <= EndOf(since, steps) && (!wasFull ==> f == from)
    ensures m <= AllowedWithin(config, bucket, steps, f, to) + if wasFull then 0 else k
    decreases |steps|
  {
    if steps == [] {
      f, m, wasFull := from, k, false;
    } else {
      var step, rest := steps[0], steps[1..];
      var next := Next(config, bucket, step);
      EndAfter(config, next, step.now, rest);
      assert EndOf(since, steps) == EndOf(step.now, rest);
      LaterLevel(config, bucket, since, step.now, from, k);
      NextIsSound(config, bucket, step);
      if Hits(config, bucket, step) {
        var f1, m1 := HitKeepsLevel(config, bucket, step.now, from, k);
        f, m, wasFull := RunKeepsLevel(config, next, step.now, rest, f1, m1, to);
        if !wasFull && !(f1 == from && m1 == k + 1) {
          wasFull := true;
        }
      } else {
        if step.Expiry? {
          ExpiryKeepsLevel(config, bucket, step.now, from, k);
        }
        f, m, wasFull := RunKeepsLevel(config, next, step.now, rest, from, k, to);
      }
    }
  }

  lemma {:induction false} EndAfter(config: Config, bucket: Bucket, since: int, steps: seq<Step>)
    requires Usable(config) && Run(config, bucket, since, steps)
    ensures since <= EndOf(since, steps)
    decreases |steps|
  {
    if steps != [] {
      EndAfter(config, Next(config, bucket, steps[0]), steps[0].now, steps[1..]);
      assert EndOf(since, steps) == EndOf(steps[0].now, steps[1..]);
    }
  }

  // One more call at the end of a run.
  lemma {:induction false} OneMoreCall(config: Config, bucket: Bucket, since: int, steps: seq<Step>, now: int,
                                       from: int, to: int)
    requires Usable(config) && Run(config, bucket, since, steps) && EndOf(since, steps) <= now
    ensures Run(config, bucket, since, steps + [Call(now)])
    ensures AllowedWithin(config, bucket, steps + [Call(now)], from, to) ==
            AllowedWithin(config, bucket, steps, from, to) +
            if Decide(config, After(config, bucket, steps), now).allowed && from <= now <= to then 1 else 0
    decreases |steps|
  {
    var more := steps + [Call(now)];
    if steps == [] {
      assert more == [Call(now)] && more[1..] == [];
    } else {
      assert more[0] == steps[0] && more[1..] == steps[1..] + [Call(now)];
      assert EndOf(since, steps) == EndOf(steps[0].now, steps[1..]);
      OneMoreCall(config, Next(config, bucket, steps[0]), steps[0].now, steps[1..], now, from, to);
    }
  }

  // One more call fits into the bound on an interval.
  predicate HasRoom(config: Config, steps: seq<Step>, from: int, to: int)
    requires Usable(config)
  {
    AllowedWithin(config, Absent, steps, from, to) as real + 1.0 <= config.capacity + Refilled(config, to - from)
  }

  // After any run on a new key, with keys dropped at any permitted moments, a call is
  // allowed exactly when every interval that ends with it still keeps the bound.
  lemma AllowedExactly(config: Config, since: int, steps: seq<Step>, now: int)
    requires Usable(config) && Run(config, Absent, since, steps) && EndOf(since, steps) <= now
    ensures Decide(config, After(config, Absent, steps), now).allowed <==>
            forall from :: since <= from <= now ==> HasRoom(config, steps, from, now)
  {
    if Decide(config, After(config, Absent, steps), now).allowed {
      forall from | since <= from <= now
        ensures HasRoom(config, steps, from, now)
      {
        OneMoreCall(config, Absent, since, steps, now, from, now);
        WindowBound(config, Absent, since, steps + [Call(now)], from, now);
      }
    } else {
      var from := DeniedAtTheBound(config, since, steps, now);
    }
  }

  lemma DeniedAtTheBound(config: Config, since: int, steps: seq<Step>, now: int) returns (from: int)
    requires Usable(config) && Run(config, Absent, since, steps) && EndOf(since, steps) <= now
    requires !Decide(config, After(config, Absent, steps), now).allowed
    ensures since <= from <= now && !HasRoom(config, steps, from, now)
  {
    forall t | since <= t
      ensures Level(config, Absent, t) == Min(config.capacity, config.capacity + Refilled(config, t - since) - 0.0)
    {
      RefilledGrows(config, 0, t - since);
    }
    assert IsLevel(config, Absent, since, since, 0);
    var f, m, wasFull := RunKeepsLevel(config, Absent, since, steps, since, 0, now);
    from := f;
    assert Level(config, After(config, Absent, steps), now) ==
           Min(config.capacity, config.capacity + Refilled(config, now - f) - m as real);
  }
}
