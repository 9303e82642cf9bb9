/** The mock provider's deterministic failure injection (mock_provider.py). */
module FailureInjectionModel {
  const MULTIPLIER := 2654435761
  const PERIOD := 10000
  /** The inverse of the multiplier modulo the period. */
  const INVERSE := 5841

  function Clamp(rate: real): real {
    if rate < 0.0 then 0.0 else if rate > 1.0 then 1.0 else rate
  }

  /** The bucket of the n-th call, as a whole number of ten-thousandths. */
  function Bucket(n: nat): (b: nat)
    ensures b < PERIOD
  {
    (n * MULTIPLIER) % PERIOD
  }

  predicate Fails(rate: real, n: nat) {
    rate > 0.0 && Bucket(n) as real / 10000.0 < rate
  }

  /** How many of the calls from + 1 .. from + calls fail. */
  function Failures(rate: real, from: nat, calls: nat): nat {
    if calls == 0 then 0
    else Failures(rate, from, calls - 1) + (if Fails(rate, from + calls) then 1 else 0)
  }

  /** The least whole number not below `x`. */
  function Ceiling(x: real): int { -((-x).Floor) }

  /** What one period of calls promises: min(10000, ceil(10000 * rate)) failures, none for a rate of 0 or less. */
  function Quota(rate: real): nat {
    var q := Ceiling(10000.0 * rate);
    if q < 0 then 0 else if q > PERIOD then PERIOD else q
  }

  class MockProvider {
    const failRate: real
    var callCount: nat
    var errorCount: nat

    ghost predicate Valid() reads this {
      && 0.0 <= failRate <= 1.0
      && errorCount == Failures(failRate, 0, callCount)
    }

    constructor (rate: real)
      ensures Valid() && failRate == Clamp(rate) && callCount == 0 && errorCount == 0
    {
      failRate := Clamp(rate);
      callCount, errorCount := 0, 0;
    }

    method MaybeInjectFailure() returns (raised: bool)
      modifies `errorCount
      ensures raised == Fails(failRate, callCount)
      ensures errorCount == old(errorCount) + (if raised then 1 else 0)
    {
      if failRate <= 0.0 { return false; }
      var bucket := ((callCount * MULTIPLIER) % PERIOD) as real / 10000.0;
      if bucket < failRate {
        errorCount := errorCount + 1;
        return true;
      }
      return false;
    }

    /** A chat or embedding call, as far as failure injection goes. */
    method Call() returns (raised: bool)
      requires Valid()
      modifies this
      ensures Valid() && callCount == old(callCount) + 1
      ensures raised == Fails(failRate, callCount)
      ensures errorCount == old(errorCount) + (if raised then 1 else 0)
    {
      callCount := callCount + 1;
      raised := MaybeInjectFailure();
    }
  }

  // Every bucket once in a period

  lemma ModUnique(a: int, b: int, k: int)
    requires a == b + k * PERIOD && 0 <= b < PERIOD
    ensures a % PERIOD == b
  {
  }

  lemma InverseUndoes(x: int)
    ensures (x * INVERSE) * MULTIPLIER == x + (x * 1550455928) * PERIOD
  {
  }

  /** The call in `from + 1 .. from + PERIOD` whose bucket is `b`. */
  function CallOf(from: nat, b: nat): (n: nat)
    ensures from < n <= from + PERIOD
  {
    from + 1 + (b * INVERSE - from - 1) % PERIOD
  }

  lemma CallOfHasBucket(from: nat, b: nat)
    requires b < PERIOD
    ensures Bucket(CallOf(from, b)) == b
  {
    var n := CallOf(from, b);
    var q := (b * INVERSE - from - 1) / PERIOD;
    assert n == b * INVERSE - q * PERIOD;
    InverseUndoes(b);
    ModUnique(n * MULTIPLIER, b, b * 1550455928 - q * MULTIPLIER);
  }

  lemma OnlyCallOf(from: nat, n: nat)
    requires from < n <= from + PERIOD
    ensures n == CallOf(from, Bucket(n))
  {
    var b := Bucket(n);
    var k := (n * MULTIPLIER) / PERIOD;
    assert b == n * MULTIPLIER - k * PERIOD;
    InverseUndoes(n);
    assert b * INVERSE == n + (n * 1550455928 - k * INVERSE) * PERIOD;
    ModUnique(b * INVERSE - from - 1, n - from - 1, n * 1550455928 - k * INVERSE);
  }

  /** Main result 1: among any 10000 consecutive calls each bucket belongs to exactly one. */
  lemma EachBucketOnce(from: nat, b: nat, n: nat)
    requires b < PERIOD && from < n <= from + PERIOD
    ensures Bucket(n) == b <==> n == CallOf(from, b)
  {
    CallOfHasBucket(from, b);
    OnlyCallOf(from, n);
  }

  lemma FailsBelowQuota(rate: real, n: nat)
    ensures Fails(rate, n) <==> Bucket(n) < Quota(rate)
  {
    hide Bucket;
    var x := 10000.0 * rate;
    assert Ceiling(x) as real >= x > (Ceiling(x) - 1) as real;
  }

  ghost function FailingCalls(rate: real, from: nat, calls: nat): set<nat> {
    set n: nat | from < n <= from + calls && Fails(rate, n)
  }

  lemma {:induction false} FailuresCount(rate: real, from: nat, calls: nat)
    ensures Failures(rate, from, calls) == |FailingCalls(rate, from, calls)|
  {
    hide Fails;
    if calls == 0 {
      assert FailingCalls(rate, from, 0) == {};
    } else {
      FailuresCount(rate, from, calls - 1);
      var last := from + calls;
      var before := FailingCalls(rate, from, calls - 1);
      assert FailingCalls(rate, from, calls) == before + (if Fails(rate, last) then {last} else {});
      assert last !in before;
    }
  }

  ghost function CallsOf(from: nat, bound: nat): set<nat> {
    set b: nat | b < bound :: CallOf(from, b)
  }

  lemma {:induction false} CallsOfCount(from: nat, bound: nat)
    requires bound <= PERIOD
    ensures |CallsOf(from, bound)| == bound
  {
    hide CallOf, Bucket;
    if bound == 0 {
      assert CallsOf(from, 0) == {};
    } else {
      CallsOfCount(from, bound - 1);
      var n := CallOf(from, bound - 1);
      assert CallsOf(from, bound) == CallsOf(from, bound - 1) + {n};
      forall b: nat | b < bound - 1 ensures CallOf(from, b) != n {
        CallOfHasBucket(from, b);
        CallOfHasBucket(from, bound - 1);
      }
    }
  }

  /** Main result 2: any 10000 consecutive calls hit the rate exactly. */
  lemma PeriodMeetsQuota(rate: real, from: nat)
    ensures Failures(rate, from, PERIOD) == Quota(rate)
  {
    FailuresCount(rate, from, PERIOD);
    CallsOfCount(from, Quota(rate));
    hide CallOf, Bucket, Fails, Quota;
    var fails, calls := FailingCalls(rate, from, PERIOD), CallsOf(from, Quota(rate));
    forall n | n in fails ensures n in calls {
      FailsBelowQuota(rate, n);
      OnlyCallOf(from, n);
    }
    forall n | n in calls ensures n in fails {
      var b: nat :| b < Quota(rate) && n == CallOf(from, b);
      QuotaBound(rate);
      CallOfHasBucket(from, b);
      FailsBelowQuota(rate, n);
    }
    assert fails == calls;
  }

  lemma QuotaBound(rate: real)
    ensures Quota(rate) <= PERIOD
  {
  }

  lemma {:induction false} FailuresAdd(rate: real, from: nat, a: nat, b: nat)
    ensures Failures(rate, from, a + b) == Failures(rate, from, a) + Failures(rate, from + a, b)
  {
    hide Fails;
    if b > 0 { FailuresAdd(rate, from, a, b - 1); }
  }

  lemma {:induction false} PeriodsMeetQuota(rate: real, from: nat, periods: nat)
    ensures Failures(rate, from, periods * PERIOD) == periods * Quota(rate)
  {
    hide Fails, Quota;
    if periods > 0 {
      PeriodsMeetQuota(rate, from, periods - 1);
      FailuresAdd(rate, from, (periods - 1) * PERIOD, PERIOD);
      PeriodMeetsQuota(rate, from + (periods - 1) * PERIOD);
    }
  }

  /** Main result 3: over any number of calls the count stays within one period's quota of the whole periods. */
  lemma FailuresTrackRate(rate: real, from: nat, calls: nat)
    ensures var periods := calls / PERIOD;
      periods * Quota(rate) <= Failures(rate, from, calls) <= (periods + 1) * Quota(rate)
  {
    hide Fails, Quota;
    var periods, rest := calls / PERIOD, calls % PERIOD;
    FailuresAdd(rate, from, periods * PERIOD, rest);
    PeriodsMeetQuota(rate, from, periods);
    var at := from + periods * PERIOD;
    FailuresAdd(rate, at, rest, PERIOD - rest);
    PeriodMeetsQuota(rate, at);
    assert (periods + 1) * Quota(rate) == periods * Quota(rate) + Quota(rate);
  }
}
