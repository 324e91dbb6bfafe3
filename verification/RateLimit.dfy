/** The token-bucket rate limiter of apps/control-plane/src/oidc/rate-limit.ts, with token counts as
    real numbers. */
module RateLimit {
  import opened Common

  datatype Bucket = Bucket(tokens: real, lastRefillMs: real)

  /** Tokens refilled per millisecond, and the most a bucket holds. */
  datatype Limits = Limits(ratePerMs: real, burst: real)

  function Min(a: real, b: real): real {
    if a <= b then a else b
  }

  function Max(a: real, b: real): real {
    if a <= b then b else a
  }

  function Ceil(x: real): int {
    -((-x).Floor)
  }

  /** Limits as the factory computes them from its options: by default a bucket holds ten seconds' worth,
      and at least one token. */
  function MakeLimits(ratePerMinute: real, burst: Option<real>): (l: Limits)
    ensures 60000.0 * l.ratePerMs == ratePerMinute
    ensures burst.Some? ==> l.burst == burst.value
    ensures burst.None? ==> l.burst >= 1.0 && l.burst >= ratePerMinute / 6.0
    ensures burst.None? ==> l.burst.Floor as real == l.burst && (l.burst == 1.0 || l.burst < ratePerMinute / 6.0 + 1.0)
  {
    Limits(ratePerMinute / 60000.0,
           if burst.Some? then burst.value else Max(1.0, Ceil(ratePerMinute / 6.0) as real))
  }

  /** The tokens that `ms` milliseconds are worth. */
  function Refill(l: Limits, ms: real): real {
    ms * l.ratePerMs
  }

  lemma RefillAdds(l: Limits, a: real, b: real)
    ensures Refill(l, a + b) == Refill(l, a) + Refill(l, b)
  {
  }

  lemma RefillPositive(l: Limits, a: real)
    requires l.ratePerMs >= 0.0 && a >= 0.0
    ensures Refill(l, a) >= 0.0
  {
  }

  /** The tokens of a bucket at time `t`. */
  function TokensAt(l: Limits, b: Bucket, t: real): real {
    Min(l.burst, b.tokens + Refill(l, t - b.lastRefillMs))
  }

  type Buckets = map<string, Bucket>

  datatype Outcome = Outcome(admitted: bool, bucket: Bucket)

  /** One call: whether it is admitted, and the bucket it leaves. */
  function Acquire(l: Limits, b: Buckets, key: string, t: real): Outcome {
    if key !in b then Outcome(true, Bucket(l.burst - 1.0, t))
    else
      var tokens := TokensAt(l, b[key], t);
      if tokens < 1.0 then Outcome(false, Bucket(tokens, t)) else Outcome(true, Bucket(tokens - 1.0, t))
  }

  class TokenBucketRateLimiter {
    const limits: Limits
    var buckets: Buckets

    constructor (ratePerMinute: real, burst: Option<real>)
      ensures limits == MakeLimits(ratePerMinute, burst) && buckets == map[]
    {
      limits, buckets := MakeLimits(ratePerMinute, burst), map[];
    }

    /** `tryAcquire` at time `t`. */
    method TryAcquire(key: string, t: real) returns (admitted: bool)
      modifies this`buckets
      ensures admitted == Acquire(limits, old(buckets), key, t).admitted
      ensures buckets == old(buckets)[key := Acquire(limits, old(buckets), key, t).bucket]
    {
      if key !in buckets {
        buckets := buckets[key := Bucket(limits.burst - 1.0, t)];
        return true;
      }
      var existing := buckets[key];
      var refill := Refill(limits, t - existing.lastRefillMs);
      var tokens := Min(limits.burst, existing.tokens + refill);
      if tokens < 1.0 {
        buckets := buckets[key := Bucket(tokens, t)];
        return false;
      }
      buckets := buckets[key := Bucket(tokens - 1.0, t)];
      return true;
    }
  }

  // ---------------------------------------------------------------- call sequences

  datatype Call = Call(key: string, at: real)

  /** The buckets after a sequence of calls. */
  function After(l: Limits, calls: seq<Call>): Buckets {
    if calls == [] then map[]
    else
      var before := After(l, calls[..|calls| - 1]);
      var c := calls[|calls| - 1];
      before[c.key := Acquire(l, before, c.key, c.at).bucket]
  }

  /** Whether call `i` is admitted. */
  function Admitted(l: Limits, calls: seq<Call>, i: nat): bool
    requires i < |calls|
  {
    Acquire(l, After(l, calls[..i]), calls[i].key, calls[i].at).admitted
  }

  /** The clock does not run backwards. */
  predicate Monotone(calls: seq<Call>) {
    forall i, j | 0 <= i <= j < |calls| :: calls[i].at <= calls[j].at
  }

  /** How many calls for `key` among those from `lo` up to `hi` are admitted. */
  function Admissions(l: Limits, calls: seq<Call>, key: string, lo: nat, hi: nat): nat
    requires lo <= hi <= |calls|
    decreases hi
  {
    if lo == hi then 0
    else
      var earlier := Admissions(l, calls, key, lo, hi - 1);
      if calls[hi - 1].key == key && Admitted(l, calls, hi - 1) then earlier + 1 else earlier
  }

  /** What a key could draw at time `t`: its refilled bucket, or a full one it has not started yet. */
  function Available(l: Limits, b: Buckets, key: string, t: real): real {
    if key !in b then Max(1.0, l.burst) else TokensAt(l, b[key], t)
  }

  /** A key draws at most one full bucket, or the one call that opens it. */
  lemma AvailableBounded(l: Limits, b: Buckets, key: string, t: real)
    ensures Available(l, b, key, t) <= Max(1.0, l.burst)
  {
  }

  /** Waiting gains at most the refill. */
  lemma AvailableGrows(l: Limits, b: Buckets, key: string, t: real, u: real)
    requires l.ratePerMs >= 0.0 && t <= u
    ensures Available(l, b, key, u) <= Available(l, b, key, t) + Refill(l, u - t)
  {
    RefillPositive(l, u - t);
    if key in b {
      RefillAdds(l, t - b[key].lastRefillMs, u - t);
      assert t - b[key].lastRefillMs + (u - t) == u - b[key].lastRefillMs;
    }
  }

  /** An admitted call costs one token of what was available; a denied one costs nothing. */
  lemma AcquireSpends(l: Limits, b: Buckets, key: string, t: real)
    ensures var o := Acquire(l, b, key, t);
            Available(l, b[key := o.bucket], key, t) + (if o.admitted then 1.0 else 0.0) <= Available(l, b, key, t)
    ensures Acquire(l, b, key, t).admitted <==> Available(l, b, key, t) >= 1.0
  {
    var o := Acquire(l, b, key, t);
    assert t - o.bucket.lastRefillMs == 0.0 && Refill(l, 0.0) == 0.0;
  }

  // ---------------------------------------------------------------- the rate bound

  lemma AfterPrefix(l: Limits, calls: seq<Call>, i: nat)
    requires i < |calls|
    ensures After(l, calls[..i + 1])
            == After(l, calls[..i])[calls[i].key := Acquire(l, After(l, calls[..i]), calls[i].key, calls[i].at).bucket]
  {
    assert calls[..i + 1][..i] == calls[..i];
  }

  /** One more call: what it admits and leaves is covered by what was available at its time. */
  lemma StepSpends(l: Limits, calls: seq<Call>, key: string, i: nat)
    requires i < |calls|
    ensures Available(l, After(l, calls[..i + 1]), key, calls[i].at)
            + (if calls[i].key == key && Admitted(l, calls, i) then 1.0 else 0.0)
            <= Available(l, After(l, calls[..i]), key, calls[i].at)
  {
    AfterPrefix(l, calls, i);
    AcquireSpends(l, After(l, calls[..i]), calls[i].key, calls[i].at);
  }

  /** What call `i` admits. */
  function Spent(l: Limits, calls: seq<Call>, key: string, i: nat): real
    requires i < |calls|
  {
    if calls[i].key == key && Admitted(l, calls, i) then 1.0 else 0.0
  }

  lemma AdmissionsStep(l: Limits, calls: seq<Call>, key: string, lo: nat, hi: nat)
    requires lo < hi <= |calls|
    ensures Admissions(l, calls, key, lo, hi) as real
            == Admissions(l, calls, key, lo, hi - 1) as real + Spent(l, calls, key, hi - 1)
  {
  }

  /** What a key can draw right after call `i`. */
  function Left(l: Limits, calls: seq<Call>, key: string, i: nat): real
    requires i < |calls|
  {
    Available(l, After(l, calls[..i + 1]), key, calls[i].at)
  }

  /** Between two calls in a row a key gains at most the refill, and pays for what it is admitted. */
  lemma StepLeft(l: Limits, calls: seq<Call>, key: string, i: nat)
    requires Monotone(calls) && l.ratePerMs >= 0.0 && i + 1 < |calls|
    ensures Left(l, calls, key, i + 1) + Spent(l, calls, key, i + 1)
            <= Left(l, calls, key, i) + Refill(l, calls[i + 1].at - calls[i].at)
  {
    StepSpends(l, calls, key, i + 1);
    AvailableGrows(l, After(l, calls[..i + 1]), key, calls[i].at, calls[i + 1].at);
  }

  lemma FirstLeft(l: Limits, calls: seq<Call>, key: string, i: nat)
    requires i < |calls|
    ensures Left(l, calls, key, i) + Spent(l, calls, key, i) <= Max(1.0, l.burst)
  {
    StepSpends(l, calls, key, i);
    AvailableBounded(l, After(l, calls[..i]), key, calls[i].at);
  }

  lemma RefillSplits(l: Limits, a: real, b: real, c: real)
    ensures Refill(l, b - a) + Refill(l, c - b) == Refill(l, c - a)
    ensures Refill(l, a - a) == 0.0
  {
    RefillAdds(l, b - a, c - b);
    assert b - a + (c - b) == c - a;
  }

  /** From call `lo` to call `hi - 1`: what was admitted and what is left was either available at the
      start or refilled since. */
  lemma {:induction false} SpendingBound(l: Limits, calls: seq<Call>, key: string, lo: nat, hi: nat)
    requires Monotone(calls) && l.ratePerMs >= 0.0 && lo < hi <= |calls|
    ensures Admissions(l, calls, key, lo, hi) as real + Left(l, calls, key, hi - 1)
            <= Max(1.0, l.burst) + Refill(l, calls[hi - 1].at - calls[lo].at)
    decreases hi
  {
    AdmissionsStep(l, calls, key, lo, hi);
    if lo == hi - 1 {
      FirstLeft(l, calls, key, lo);
      RefillSplits(l, calls[lo].at, calls[lo].at, calls[lo].at);
    } else {
      SpendingBound(l, calls, key, lo, hi - 1);
      StepLeft(l, calls, key, hi - 2);
      RefillSplits(l, calls[lo].at, calls[hi - 2].at, calls[hi - 1].at);
    }
  }

  /** With room for at least one token, token counts stay between zero and the burst. */
  lemma {:induction false} TokensInRange(l: Limits, calls: seq<Call>, key: string)
    requires Monotone(calls) && l.ratePerMs >= 0.0 && l.burst >= 1.0 && key in After(l, calls)
    ensures 0.0 <= After(l, calls)[key].tokens <= l.burst
    ensures calls != [] && After(l, calls)[key].lastRefillMs <= calls[|calls| - 1].at
  {
    var before, c := calls[..|calls| - 1], calls[|calls| - 1];
    if key in After(l, before) {
      TokensInRange(l, before, key);
      RefillPositive(l, c.at - After(l, before)[key].lastRefillMs);
    }
  }

  /** A bucket that can never hold a whole token admits only the call that opens it. */
  lemma {:induction false} SmallBurstAdmitsOnce(l: Limits, calls: seq<Call>, key: string, lo: nat, hi: nat)
    requires l.burst < 1.0 && lo <= hi <= |calls|
    ensures Admissions(l, calls, key, lo, hi) <= if key in After(l, calls[..lo]) then 0 else 1
    ensures Admissions(l, calls, key, lo, hi) == 1 ==> key in After(l, calls[..hi])
    ensures key in After(l, calls[..lo]) ==> key in After(l, calls[..hi])
    decreases hi
  {
    if lo < hi {
      SmallBurstAdmitsOnce(l, calls, key, lo, hi - 1);
      AfterPrefix(l, calls, hi - 1);
    }
  }

  lemma RefillMonotone(l: Limits, a: real, b: real)
    requires l.ratePerMs >= 0.0 && a <= b
    ensures Refill(l, a) <= Refill(l, b)
  {
    RefillPositive(l, b - a);
    RefillAdds(l, a, b - a);
  }

  /** Nothing is owed: with room for at least one token a key can never draw less than nothing. */
  lemma LeftPositive(l: Limits, calls: seq<Call>, key: string, i: nat)
    requires Monotone(calls) && l.ratePerMs >= 0.0 && l.burst >= 1.0 && i < |calls|
    ensures Left(l, calls, key, i) >= 0.0
  {
    var upTo := calls[..i + 1];
    if key in After(l, upTo) {
      TokensInRange(l, upTo, key);
      RefillPositive(l, calls[i].at - After(l, upTo)[key].lastRefillMs);
    }
  }

  /** The rate bound: in any window of time, whatever the calls for this and other keys, a key is
      admitted at most one burst (one call, for a smaller burst) plus the refill of the window. */
  lemma RateBound(l: Limits, calls: seq<Call>, key: string, lo: nat, hi: nat, s: real, t: real)
    requires Monotone(calls) && l.ratePerMs >= 0.0 && lo <= hi <= |calls| && s <= t
    requires forall i | lo <= i < hi :: s <= calls[i].at <= t
    ensures Admissions(l, calls, key, lo, hi) as real <= Max(1.0, l.burst) + Refill(l, t - s)
  {
    RefillPositive(l, t - s);
    if l.burst < 1.0 {
      SmallBurstAdmitsOnce(l, calls, key, lo, hi);
    } else if lo < hi {
      SpendingBound(l, calls, key, lo, hi);
      LeftPositive(l, calls, key, hi - 1);
      RefillMonotone(l, calls[hi - 1].at - calls[lo].at, t - s);
    }
  }

  /** A key that has waited long enough to refill one token is admitted. */
  lemma IdleKeyAdmitted(l: Limits, calls: seq<Call>, key: string, t: real)
    requires Monotone(calls) && l.ratePerMs >= 0.0 && l.burst >= 1.0
    requires key in After(l, calls) ==> Refill(l, t - After(l, calls)[key].lastRefillMs) >= 1.0
    ensures Acquire(l, After(l, calls), key, t).admitted
  {
    if key in After(l, calls) {
      TokensInRange(l, calls, key);
    }
  }

  // ---------------------------------------------------------------- nothing is withheld

  /** What is left at `t` of the allowance of the window that starts with call `lo`, after the calls before `hi`. */
  function Allowance(l: Limits, calls: seq<Call>, key: string, lo: nat, hi: nat, t: real): real
    requires lo <= hi <= |calls| && lo < |calls|
  {
    l.burst - Admissions(l, calls, key, lo, hi) as real + Refill(l, t - calls[lo].at)
  }

  /** The least such allowance is there to draw, or a whole bucket. */
  ghost predicate Least(l: Limits, calls: seq<Call>, key: string, hi: nat, t: real, a: real)
    requires hi <= |calls|
  {
    && a <= l.burst
    && (forall lo: nat | lo < hi :: a <= Allowance(l, calls, key, lo, hi, t))
    && (a == l.burst || exists lo: nat :: lo < hi && a == Allowance(l, calls, key, lo, hi, t))
  }

  /** What a call leaves to draw later. */
  lemma DrawLater(l: Limits, b: Buckets, key: string, u: real, t: real)
    requires l.burst >= 1.0 && l.ratePerMs >= 0.0 && u <= t
    ensures var o := Acquire(l, b, key, u);
            Available(l, b[key := o.bucket], key, t)
            == Min(l.burst, Available(l, b, key, u) - (if o.admitted then 1.0 else 0.0) + Refill(l, t - u))
  {
  }

  lemma AllowanceStep(l: Limits, calls: seq<Call>, key: string, lo: nat, hi: nat, t: real)
    requires lo < hi < |calls|
    ensures Allowance(l, calls, key, lo, hi + 1, t)
            == Allowance(l, calls, key, lo, hi, calls[hi].at) - Spent(l, calls, key, hi) + Refill(l, t - calls[hi].at)
  {
    AdmissionsStep(l, calls, key, lo, hi + 1);
    RefillSplits(l, calls[lo].at, calls[hi].at, t);
  }

  lemma AllowanceFirst(l: Limits, calls: seq<Call>, key: string, hi: nat, t: real)
    requires hi < |calls|
    ensures Allowance(l, calls, key, hi, hi + 1, t)
            == l.burst - Spent(l, calls, key, hi) + Refill(l, t - calls[hi].at)
  {
    AdmissionsStep(l, calls, key, hi, hi + 1);
  }

  lemma LeastStep(l: Limits, calls: seq<Call>, key: string, hi: nat, t: real, a: real, b: real)
    requires hi < |calls| && l.ratePerMs >= 0.0 && calls[hi].at <= t
    requires Least(l, calls, key, hi, calls[hi].at, a)
    requires b == Min(l.burst, a - Spent(l, calls, key, hi) + Refill(l, t - calls[hi].at))
    ensures Least(l, calls, key, hi + 1, t, b)
  {
    var u, n := calls[hi].at, hi + 1;
    AllowanceFirst(l, calls, key, hi, t);
    forall lo: nat | lo < n ensures b <= Allowance(l, calls, key, lo, n, t) {
      if lo < hi {
        AllowanceStep(l, calls, key, lo, hi, t);
        assert a <= Allowance(l, calls, key, lo, hi, u);
      }
    }
    if b != l.burst {
      if a == l.burst {
        assert b == Allowance(l, calls, key, hi, hi + 1, t);
      } else {
        var lo: nat :| lo < hi && a == Allowance(l, calls, key, lo, hi, u);
        AllowanceStep(l, calls, key, lo, hi, t);
        assert b == Allowance(l, calls, key, lo, hi + 1, t);
      }
    }
  }

  /** A call for another key changes nothing but the time. */
  lemma OtherStep(l: Limits, calls: seq<Call>, key: string, hi: nat, t: real)
    requires hi < |calls| && calls[hi].key != key && l.ratePerMs >= 0.0 && l.burst >= 1.0 && calls[hi].at <= t
    ensures Available(l, After(l, calls[..hi + 1]), key, t)
            == Min(l.burst, Available(l, After(l, calls[..hi]), key, calls[hi].at) + Refill(l, t - calls[hi].at))
  {
    AfterPrefix(l, calls, hi);
    var b := After(l, calls[..hi]);
    RefillPositive(l, t - calls[hi].at);
    if key in b {
      RefillSplits(l, b[key].lastRefillMs, calls[hi].at, t);
    }
  }

  /** What a key can draw after a call, at a later time. */
  lemma AvailableStep(l: Limits, calls: seq<Call>, key: string, i: nat, t: real)
    requires i < |calls| && l.ratePerMs >= 0.0 && l.burst >= 1.0 && calls[i].at <= t
    ensures Available(l, After(l, calls[..i + 1]), key, t)
            == Min(l.burst, Available(l, After(l, calls[..i]), key, calls[i].at) - Spent(l, calls, key, i)
                            + Refill(l, t - calls[i].at))
  {
    if calls[i].key == key {
      AfterPrefix(l, calls, i);
      DrawLater(l, After(l, calls[..i]), key, calls[i].at, t);
    } else {
      OtherStep(l, calls, key, i, t);
    }
  }

  lemma {:induction false} LeastAvailable(l: Limits, calls: seq<Call>, key: string, hi: nat, t: real)
    requires Monotone(calls) && l.ratePerMs >= 0.0 && l.burst >= 1.0 && hi <= |calls|
    requires hi > 0 ==> calls[hi - 1].at <= t
    ensures Least(l, calls, key, hi, t, Available(l, After(l, calls[..hi]), key, t))
  {
    if hi > 0 {
      var i := hi - 1;
      LeastAvailable(l, calls, key, i, calls[i].at);
      AvailableStep(l, calls, key, i, t);
      LeastStep(l, calls, key, i, t, Available(l, After(l, calls[..i]), key, calls[i].at),
                Available(l, After(l, calls[..hi]), key, t));
    } else {
      assert calls[..0] == [];
    }
  }

  /** One more admission at `t` keeps every window that starts with a call before `i` inside the rate bound. */
  predicate RoomIn(l: Limits, calls: seq<Call>, key: string, i: nat, t: real)
    requires i <= |calls|
  {
    forall lo: nat | lo < i ::
      Admissions(l, calls, key, lo, i) as real + 1.0 <= l.burst + Refill(l, t - calls[lo].at)
  }

  lemma RoomIff(l: Limits, calls: seq<Call>, key: string, i: nat, t: real, a: real)
    requires l.burst >= 1.0 && i < |calls| && Least(l, calls, key, i, t, a)
    ensures a >= 1.0 <==> RoomIn(l, calls, key, i, t)
  {
    forall lo: nat | lo < i
      ensures Allowance(l, calls, key, lo, i, t)
              == l.burst - Admissions(l, calls, key, lo, i) as real + Refill(l, t - calls[lo].at)
    {
    }
  }

  /** A call is admitted exactly when that keeps every window that ends with it inside the rate bound. */
  lemma AdmittedIff(l: Limits, calls: seq<Call>, i: nat)
    requires Monotone(calls) && l.ratePerMs >= 0.0 && l.burst >= 1.0 && i < |calls|
    ensures Admitted(l, calls, i) <==> RoomIn(l, calls, calls[i].key, i, calls[i].at)
  {
    var key, t, b := calls[i].key, calls[i].at, After(l, calls[..i]);
    LeastAvailable(l, calls, key, i, t);
    AcquireSpends(l, b, key, t);
    RoomIff(l, calls, key, i, t, Available(l, b, key, t));
  }

  lemma InstantTokens(l: Limits, b: Bucket, t: real, n: nat)
    requires l.burst >= 1.0 && b == Bucket(l.burst - n as real, t)
    ensures TokensAt(l, b, t) == l.burst - n as real
  {
    assert t - t == 0.0 && Refill(l, 0.0) == 0.0;
  }

  /** So of calls at one instant, for a key not seen before, as many are admitted as fit the burst. */
  lemma {:induction false} BurstAtOnce(l: Limits, calls: seq<Call>, key: string, t: real, n: nat)
    requires l.burst >= 1.0 && n <= |calls| && forall i | 0 <= i < |calls| :: calls[i] == Call(key, t)
    ensures Admissions(l, calls, key, 0, n) == if n as real <= l.burst then n else l.burst.Floor
    ensures n > 0 ==> key in After(l, calls[..n])
                      && After(l, calls[..n])[key] == Bucket(l.burst - Admissions(l, calls, key, 0, n) as real, t)
  {
    if n > 0 {
      BurstAtOnce(l, calls, key, t, n - 1);
      AfterPrefix(l, calls, n - 1);
      if n > 1 {
        InstantTokens(l, After(l, calls[..n - 1])[key], t, Admissions(l, calls, key, 0, n - 1));
      } else {
        assert calls[..0] == [];
      }
    }
  }

  // ---------------------------------------------------------------- other keys

  /** The calls for one key. */
  function Only(calls: seq<Call>, key: string): seq<Call> {
    if calls == [] then []
    else
      var earlier := Only(calls[..|calls| - 1], key);
      if calls[|calls| - 1].key == key then earlier + [calls[|calls| - 1]] else earlier
  }

  /** Calls for other keys have no effect on a key: its next outcome is the same without them. */
  lemma {:induction false} OtherKeysNoEffect(l: Limits, calls: seq<Call>, key: string, t: real)
    ensures key in After(l, calls) <==> key in After(l, Only(calls, key))
    ensures key in After(l, calls) ==> After(l, calls)[key] == After(l, Only(calls, key))[key]
    ensures Acquire(l, After(l, calls), key, t) == Acquire(l, After(l, Only(calls, key)), key, t)
  {
    if calls != [] {
      var before, c := calls[..|calls| - 1], calls[|calls| - 1];
      OtherKeysNoEffect(l, before, key, c.at);
      if c.key == key {
        assert (Only(before, key) + [c])[..|Only(before, key)|] == Only(before, key);
      }
    }
  }
}
