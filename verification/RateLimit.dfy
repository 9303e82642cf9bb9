/**
 The sliding-window rate limiter: one pruned list of admission times per key.

 A run is the sequence of calls in the order they take the lock, each with the clock reading it
 brought along. The clock is read before the lock is taken, so a run may carry the readings out of
 order; `Skewed` bounds by how much.
 */
module RateLimitModel {
  datatype Limits = Limits(maxRequests: int, window: real)
  datatype Call = Call(key: string, now: real)

  function Key(endpoint: string, clientIp: string): string {
    endpoint + ":" + clientIp
  }

  /** The entries younger than the cutoff. */
  function Prune(ts: seq<real>, cutoff: real): (r: seq<real>)
    ensures |r| <= |ts|
  {
    if ts == [] then []
    else
      var rest, last := ts[..|ts| - 1], ts[|ts| - 1];
      if last > cutoff then Prune(rest, cutoff) + [last] else Prune(rest, cutoff)
  }

  function Get(table: map<string, seq<real>>, key: string): seq<real> {
    if key in table then table[key] else []
  }

  /** One decision on one key: the new list, and whether the call is allowed. */
  function Decide(lim: Limits, ts: seq<real>, now: real): (seq<real>, bool) {
    var kept := Prune(ts, now - lim.window);
    if |kept| >= lim.maxRequests then (kept, false) else (kept + [now], true)
  }

  class RateLimiter {
    const limits: Limits
    var timestamps: map<string, seq<real>>

    constructor (maxRequests: int, windowSeconds: real)
      ensures limits == Limits(maxRequests, windowSeconds) && timestamps == map[]
    {
      limits, timestamps := Limits(maxRequests, windowSeconds), map[];
    }

    method IsAllowed(endpoint: string, clientIp: string, now: real) returns (allowed: bool)
      modifies this
      ensures var key := Key(endpoint, clientIp);
        var (ts, ok) := Decide(limits, Get(old(timestamps), key), now);
        timestamps == old(timestamps)[key := ts] && allowed == ok
    {
      var key := Key(endpoint, clientIp);
      timestamps := timestamps[key := Prune(Get(timestamps, key), now - limits.window)];
      if |timestamps[key]| >= limits.maxRequests { return false; }
      timestamps := timestamps[key := timestamps[key] + [now]];
      allowed := true;
    }

    method Reset()
      modifies this
      ensures timestamps == map[]
    {
      timestamps := map[];
    }
  }

  // ---------------------------------------------------------------- runs

  /** The limiter's table after a run. */
  function Table(lim: Limits, calls: seq<Call>): map<string, seq<real>> {
    if calls == [] then map[]
    else
      var table, c := Table(lim, calls[..|calls| - 1]), calls[|calls| - 1];
      table[c.key := Decide(lim, Get(table, c.key), c.now).0]
  }

  predicate Verdict(lim: Limits, calls: seq<Call>, i: nat)
    requires i < |calls|
  {
    Decide(lim, Get(Table(lim, calls[..i]), calls[i].key), calls[i].now).1
  }

  /** The unpruned history: the times of every admitted call on a key, in lock order. */
  function Admitted(lim: Limits, calls: seq<Call>, key: string): seq<real> {
    if calls == [] then []
    else
      var n := |calls| - 1;
      var before := Admitted(lim, calls[..n], key);
      if calls[n].key == key && Verdict(lim, calls, n) then before + [calls[n].now] else before
  }

  /** A later call never carries a reading more than `d` older than an earlier call's. */
  ghost predicate Skewed(calls: seq<Call>, d: real) {
    forall i, j :: 0 <= i < j < |calls| ==> calls[i].now <= calls[j].now + d
  }

  /** How many of the times lie in `(lo, hi]`. */
  function Within(ts: seq<real>, lo: real, hi: real): nat {
    if ts == [] then 0
    else Within(ts[..|ts| - 1], lo, hi) + if lo < ts[|ts| - 1] <= hi then 1 else 0
  }

  // ---------------------------------------------------------------- the pruned list

  lemma PruneAppend(ts: seq<real>, t: real, cutoff: real)
    ensures Prune(ts + [t], cutoff) == if t > cutoff then Prune(ts, cutoff) + [t] else Prune(ts, cutoff)
  {
    assert (ts + [t])[..|ts|] == ts;
  }

  lemma {:induction false} PruneTwice(ts: seq<real>, a: real, b: real)
    requires a <= b
    ensures Prune(Prune(ts, a), b) == Prune(ts, b)
  {
    if ts != [] {
      var rest, last := ts[..|ts| - 1], ts[|ts| - 1];
      PruneTwice(rest, a, b);
      PruneAppend(Prune(rest, a), last, b);
    }
  }

  /** What one more call does to the list of a key and to its full history. */
  lemma OneMoreCall(lim: Limits, past: seq<Call>, c: Call, key: string)
    ensures var (ts, ok) := Decide(lim, Get(Table(lim, past), key), c.now);
      && Get(Table(lim, past + [c]), key) == (if c.key == key then ts else Get(Table(lim, past), key))
      && Admitted(lim, past + [c], key)
           == (if c.key == key && ok then Admitted(lim, past, key) + [c.now] else Admitted(lim, past, key))
  {
    assert (past + [c])[..|past|] == past;
  }

  lemma DecideAgrees(lim: Limits, ts: seq<real>, history: seq<real>, now: real, cutoff: real)
    requires Prune(ts, cutoff) == Prune(history, cutoff) && now - lim.window <= cutoff
    ensures var (ts', ok) := Decide(lim, ts, now);
      Prune(ts', cutoff) == Prune(if ok then history + [now] else history, cutoff)
  {
    hide Prune;
    PruneTwice(ts, now - lim.window, cutoff);
    PruneAppend(Prune(ts, now - lim.window), now, cutoff);
    PruneAppend(history, now, cutoff);
  }

  /** Pruning early loses nothing: past every cutoff used so far the list and the full history agree. */
  lemma {:induction false} ListIsHistory(lim: Limits, calls: seq<Call>, key: string, cutoff: real)
    requires forall i :: 0 <= i < |calls| ==> calls[i].now - lim.window <= cutoff
    ensures Prune(Get(Table(lim, calls), key), cutoff) == Prune(Admitted(lim, calls, key), cutoff)
  {
    if calls == [] {
    } else {
      hide *;
      var past, c := calls[..|calls| - 1], calls[|calls| - 1];
      assert calls == past + [c];
      ListIsHistory(lim, past, key, cutoff);
      OneMoreCall(lim, past, c, key);
      DecideAgrees(lim, Get(Table(lim, past), key), Admitted(lim, past, key), c.now, cutoff);
    }
  }

  lemma {:induction false} PruneIsWithin(ts: seq<real>, lo: real, hi: real)
    requires forall i :: 0 <= i < |ts| ==> ts[i] <= hi
    ensures |Prune(ts, lo)| == Within(ts, lo, hi)
  {
    if ts != [] { PruneIsWithin(ts[..|ts| - 1], lo, hi); }
  }

  lemma {:induction false} WithinAtMostPrune(ts: seq<real>, cutoff: real, lo: real, hi: real)
    requires cutoff <= lo
    ensures Within(ts, lo, hi) <= |Prune(ts, cutoff)|
  {
    if ts != [] { WithinAtMostPrune(ts[..|ts| - 1], cutoff, lo, hi); }
  }

  lemma {:induction false} AdmittedComeFromCalls(lim: Limits, calls: seq<Call>, key: string, hi: real)
    requires forall i :: 0 <= i < |calls| ==> calls[i].now <= hi
    ensures forall i :: 0 <= i < |Admitted(lim, calls, key)| ==> Admitted(lim, calls, key)[i] <= hi
  {
    if calls != [] { AdmittedComeFromCalls(lim, calls[..|calls| - 1], key, hi); }
  }

  // ---------------------------------------------------------------- main results

  /** Main result 1: with readings in lock order, a call is denied exactly when its window is already full. */
  lemma DeniedIffWindowFull(lim: Limits, calls: seq<Call>, i: nat)
    requires i < |calls| && Skewed(calls, 0.0)
    ensures Verdict(lim, calls, i) <==>
      Within(Admitted(lim, calls[..i], calls[i].key), calls[i].now - lim.window, calls[i].now) < lim.maxRequests
  {
    hide Table, Admitted, Prune, Within;
    var key, now, past := calls[i].key, calls[i].now, calls[..i];
    assert forall k :: 0 <= k < |past| ==> past[k].now <= now;
    ListIsHistory(lim, past, key, now - lim.window);
    AdmittedComeFromCalls(lim, past, key, now);
    PruneIsWithin(Admitted(lim, past, key), now - lim.window, now);
  }

  /** Readings out of order by up to `d` leave every interval shorter than the window by `d` guarded. */
  lemma {:induction false} NeverOverLimit(lim: Limits, calls: seq<Call>, key: string, d: real, x: real)
    requires Skewed(calls, d) && d >= 0.0 && lim.maxRequests >= 0
    ensures Within(Admitted(lim, calls, key), x - (lim.window - d), x) <= lim.maxRequests
  {
    if calls == [] {
    } else {
      hide *;
      var past, c := calls[..|calls| - 1], calls[|calls| - 1];
      assert calls == past + [c];
      AllEarlier(past, c, d);
      NeverOverLimit(lim, past, key, d, x);
      OneMoreCall(lim, past, c, key);
      if x - (lim.window - d) < c.now <= x {
        ListIsHistory(lim, past, key, x - (lim.window - d));
      }
      AdmitsWithin(lim, Get(Table(lim, past), key), Admitted(lim, past, key), c.now, x - (lim.window - d), x);
    }
  }

  lemma AllEarlier(past: seq<Call>, c: Call, d: real)
    requires Skewed(past + [c], d)
    ensures Skewed(past, d)
    ensures forall k :: 0 <= k < |past| ==> past[k].now <= c.now + d
  {
    var calls := past + [c];
    assert calls[|past|] == c && forall k :: 0 <= k < |past| ==> calls[k] == past[k];
  }

  /** Admitting one call keeps a window under the limit if the list saw everything in it. */
  lemma AdmitsWithin(lim: Limits, ts: seq<real>, history: seq<real>, now: real, lo: real, hi: real)
    requires Within(history, lo, hi) <= lim.maxRequests
    requires lo < now <= hi ==> now - lim.window <= lo && Prune(ts, lo) == Prune(history, lo)
    ensures Decide(lim, ts, now).1 ==> Within(history + [now], lo, hi) <= lim.maxRequests
  {
    WithinAppend(history, now, lo, hi);
    if lo < now <= hi {
      PruneTwice(ts, now - lim.window, lo);
      WithinAtMostPrune(history, lo, lo, hi);
    }
  }

  lemma WithinAppend(ts: seq<real>, t: real, lo: real, hi: real)
    ensures Within(ts + [t], lo, hi) == Within(ts, lo, hi) + if lo < t <= hi then 1 else 0
  {
    assert (ts + [t])[..|ts|] == ts;
  }

  /** With readings in lock order the guarded window is the whole one. */
  lemma OrderedNeverOverLimit(lim: Limits, calls: seq<Call>, key: string, x: real)
    requires Skewed(calls, 0.0) && lim.maxRequests >= 0
    ensures Within(Admitted(lim, calls, key), x - lim.window, x) <= lim.maxRequests
  {
    hide *;
    NeverOverLimit(lim, calls, key, 0.0, x);
  }

  // ---------------------------------------------------------------- which lengths are guarded

  ghost predicate Overfull(lim: Limits, calls: seq<Call>, key: string, len: real, x: real) {
    Within(Admitted(lim, calls, key), x - len, x) > lim.maxRequests
  }

  /** No run with readings out of order by at most `d` ever admits too many calls in an interval of this length. */
  ghost predicate Guarded(lim: Limits, d: real, len: real) {
    forall calls, key, x :: Skewed(calls, d) ==> !Overfull(lim, calls, key, len, x)
  }

  lemma {:induction false} WithinShorter(ts: seq<real>, lo: real, lo': real, hi: real)
    requires lo <= lo'
    ensures Within(ts, lo', hi) <= Within(ts, lo, hi)
  {
    if ts != [] { WithinShorter(ts[..|ts| - 1], lo, lo', hi); }
  }

  lemma {:induction false} WithinEmpty(ts: seq<real>, lo: real, hi: real)
    requires forall i :: 0 <= i < |ts| ==> !(lo < ts[i] <= hi)
    ensures Within(ts, lo, hi) == 0
  {
    if ts != [] { WithinEmpty(ts[..|ts| - 1], lo, hi); }
  }

  /** With a limit of one the list holds the last admitted reading, and admitted readings are a window apart. */
  ghost predicate OneByOne(lim: Limits, list: seq<real>, history: seq<real>) {
    && (history == [] ==> list == [])
    && (history != [] ==> list == [history[|history| - 1]])
    && (forall i, j :: 0 <= i < j < |history| ==> history[i] <= history[j] - lim.window)
  }

  lemma OneMore(lim: Limits, list: seq<real>, history: seq<real>, now: real)
    requires lim.maxRequests == 1 && lim.window > 0.0 && OneByOne(lim, list, history)
    ensures var (list', ok) := Decide(lim, list, now);
      OneByOne(lim, list', if ok then history + [now] else history)
  {
    if history != [] {
      var last := history[|history| - 1];
      PruneAppend([], last, now - lim.window);
      assert [] + [last] == [last];
    }
  }

  lemma {:induction false} AdmittedOneByOne(lim: Limits, calls: seq<Call>, key: string)
    requires lim.maxRequests == 1 && lim.window > 0.0
    ensures OneByOne(lim, Get(Table(lim, calls), key), Admitted(lim, calls, key))
  {
    if calls != [] {
      hide *;
      var past, c := calls[..|calls| - 1], calls[|calls| - 1];
      assert calls == past + [c];
      AdmittedOneByOne(lim, past, key);
      OneMoreCall(lim, past, c, key);
      OneMore(lim, Get(Table(lim, past), key), Admitted(lim, past, key), c.now);
    }
  }

  lemma {:induction false} SpacedHoldOne(ts: seq<real>, window: real, lo: real, hi: real)
    requires forall i, j :: 0 <= i < j < |ts| ==> ts[i] <= ts[j] - window
    requires hi - lo <= window
    ensures Within(ts, lo, hi) <= 1
  {
    if ts != [] {
      var n := |ts| - 1;
      if lo < ts[n] <= hi { WithinEmpty(ts[..n], lo, hi); } else { SpacedHoldOne(ts[..n], window, lo, hi); }
    }
  }

  lemma {:induction false} NothingAdmitted(lim: Limits, calls: seq<Call>, key: string)
    requires lim.maxRequests == 0
    ensures Admitted(lim, calls, key) == []
  {
    if calls != [] { NothingAdmitted(lim, calls[..|calls| - 1], key); }
  }

  /** The lengths a limiter guards: with at least two requests allowed, those up to the window less `d`. */
  predicate Covered(lim: Limits, d: real, len: real) {
    lim.maxRequests == 0
    || (lim.maxRequests > 0 && (len <= 0.0 || len <= lim.window - (if lim.maxRequests == 1 then 0.0 else d)))
  }

  lemma CoveredIsGuarded(lim: Limits, d: real, len: real)
    requires d >= 0.0 && Covered(lim, d, len)
    ensures Guarded(lim, d, len)
  {
    hide *;
    assert Guarded(lim, d, len) by {
      forall calls, key, x | Skewed(calls, d) ensures !Overfull(lim, calls, key, len, x) {
        CoveredIsNotOverfull(lim, d, len, calls, key, x);
      }
      GuardedUnfold(lim, d, len);
    }
  }

  lemma GuardedUnfold(lim: Limits, d: real, len: real)
    requires forall calls, key, x :: Skewed(calls, d) ==> !Overfull(lim, calls, key, len, x)
    ensures Guarded(lim, d, len)
  {
    hide Skewed, Overfull;
  }

  lemma CoveredIsNotOverfull(lim: Limits, d: real, len: real, calls: seq<Call>, key: string, x: real)
    requires d >= 0.0 && Covered(lim, d, len) && Skewed(calls, d)
    ensures !Overfull(lim, calls, key, len, x)
  {
    hide Admitted, Within, Skewed, Table;
    var ts := Admitted(lim, calls, key);
    if lim.maxRequests == 0 {
      NothingAdmitted(lim, calls, key);
      WithinEmpty([], x - len, x);
    } else if len <= 0.0 {
      WithinEmpty(ts, x - len, x);
    } else if lim.maxRequests == 1 {
      AdmittedOneByOne(lim, calls, key);
      SpacedHoldOne(ts, lim.window, x - len, x);
    } else {
      NeverOverLimit(lim, calls, key, d, x);
      WithinShorter(ts, x - (lim.window - d), x - len, x);
    }
  }

  // ---------------------------------------------------------------- runs over the limit

  const K := "k"

  function Zeros(n: nat): seq<real> {
    if n == 0 then [] else Zeros(n - 1) + [0.0]
  }

  /** `n` calls at time 0. */
  function Fill(n: nat): seq<Call> {
    if n == 0 then [] else Fill(n - 1) + [Call(K, 0.0)]
  }

  ghost predicate AllZero(ts: seq<real>) {
    forall i :: 0 <= i < |ts| ==> ts[i] == 0.0
  }

  lemma {:induction false} PruneZeros(ts: seq<real>, cutoff: real)
    requires AllZero(ts)
    ensures AllZero(Prune(ts, cutoff))
    ensures cutoff >= 0.0 ==> Prune(ts, cutoff) == []
  {
    if ts != [] { PruneZeros(ts[..|ts| - 1], cutoff); }
  }

  /** The list and the history of the one key after a run. */
  ghost predicate Stands(lim: Limits, calls: seq<Call>, list: seq<real>, history: seq<real>) {
    Get(Table(lim, calls), K) == list && Admitted(lim, calls, K) == history
  }

  lemma Advance(lim: Limits, calls: seq<Call>, list: seq<real>, history: seq<real>, now: real)
    requires Stands(lim, calls, list, history)
    ensures var (list', ok) := Decide(lim, list, now);
      Stands(lim, calls + [Call(K, now)], list', if ok then history + [now] else history)
  {
    hide Table, Admitted, Decide, Get;
    OneMoreCall(lim, calls, Call(K, now), K);
  }

  lemma ZeroAdmitted(lim: Limits, list: seq<real>)
    requires AllZero(list) && |list| < lim.maxRequests
    ensures var (list', ok) := Decide(lim, list, 0.0);
      ok && AllZero(list') && |list'| <= |list| + 1
  {
    PruneZeros(list, 0.0 - lim.window);
    hide Prune;
  }

  lemma {:induction false} FillIsAdmitted(lim: Limits, n: nat) returns (list: seq<real>)
    requires n <= lim.maxRequests
    ensures Stands(lim, Fill(n), list, Zeros(n)) && |list| <= n && AllZero(list)
  {
    if n == 0 {
      list := [];
    } else {
      var before := FillIsAdmitted(lim, n - 1);
      hide Stands, AllZero, Decide;
      Advance(lim, Fill(n - 1), before, Zeros(n - 1), 0.0);
      ZeroAdmitted(lim, before);
      list := Decide(lim, before, 0.0).0;
    }
  }

  lemma {:induction false} ZerosWithin(n: nat, lo: real, hi: real)
    requires lo < 0.0 <= hi
    ensures Within(Zeros(n), lo, hi) == n
  {
    if n > 0 {
      ZerosWithin(n - 1, lo, hi);
      WithinAppend(Zeros(n - 1), 0.0, lo, hi);
    }
  }

  lemma {:induction false} FillCalls(n: nat)
    ensures |Fill(n)| == n && forall i :: 0 <= i < n ==> Fill(n)[i] == Call(K, 0.0)
  {
    if n > 0 { FillCalls(n - 1); }
  }

  lemma SkewedAppend(calls: seq<Call>, c: Call, d: real)
    requires Skewed(calls, 0.0) && d >= 0.0
    requires forall i :: 0 <= i < |calls| ==> calls[i].now <= c.now + d
    ensures Skewed(calls + [c], d)
  {
  }

  /** A full window at time 0, then a call when it has just left the window. */
  function LaterRun(n: nat, later: real): seq<Call> {
    Fill(n) + [Call(K, later)]
  }

  lemma LaterRunOrdered(n: nat, later: real)
    requires later >= 0.0
    ensures Skewed(LaterRun(n, later), 0.0)
    ensures forall i :: 0 <= i < |LaterRun(n, later)| ==> LaterRun(n, later)[i].now <= later
  {
    FillCalls(n);
    hide Fill;
    SkewedAppend(Fill(n), Call(K, later), 0.0);
  }

  lemma LaterAdmitted(lim: Limits, list: seq<real>, later: real)
    requires lim.maxRequests >= 1 && AllZero(list) && later >= lim.window
    ensures Decide(lim, list, later) == ([later], true)
  {
    PruneZeros(list, later - lim.window);
    assert Prune(list, later - lim.window) == [] && [] + [later] == [later];
  }

  lemma LaterRunStands(lim: Limits, later: real)
    requires lim.maxRequests >= 1 && later >= lim.window
    ensures Stands(lim, LaterRun(lim.maxRequests, later), [later], Zeros(lim.maxRequests) + [later])
  {
    hide Stands, Decide, Fill, Zeros;
    var list := FillIsAdmitted(lim, lim.maxRequests);
    Advance(lim, Fill(lim.maxRequests), list, Zeros(lim.maxRequests), later);
    LaterAdmitted(lim, list, later);
  }

  lemma OverAfterLater(lim: Limits, len: real)
    requires lim.maxRequests >= 1 && len > 0.0 && len > lim.window
    ensures var later := if lim.window > 0.0 then lim.window else 0.0;
      Overfull(lim, LaterRun(lim.maxRequests, later), K, len, later)
  {
    hide Admitted, Table, Within, Zeros, LaterRun;
    var later := if lim.window > 0.0 then lim.window else 0.0;
    LaterRunStands(lim, later);
    WithinAppend(Zeros(lim.maxRequests), later, later - len, later);
    ZerosWithin(lim.maxRequests, later - len, later);
  }

  /** One more call, which read its clock up to `d` before the last one did. */
  function LateRun(lim: Limits, d: real): seq<Call>
    requires lim.maxRequests >= 0
  {
    LaterRun(lim.maxRequests, lim.window) + [Call(K, Early(lim, d))]
  }

  function Early(lim: Limits, d: real): real {
    if d < lim.window then lim.window - d else 0.0
  }

  lemma EarlyAdmitted(lim: Limits, now: real)
    requires lim.maxRequests >= 2 && now < lim.window + lim.window
    ensures Decide(lim, [lim.window], now) == ([lim.window, now], true)
  {
    PruneAppend([], lim.window, now - lim.window);
    assert [] + [lim.window] == [lim.window] && [lim.window] + [now] == [lim.window, now];
  }

  lemma LateRunSkewed(lim: Limits, d: real)
    requires lim.maxRequests >= 0 && lim.window > 0.0 && d >= 0.0
    ensures Skewed(LateRun(lim, d), d)
  {
    hide LaterRun, Skewed;
    LaterRunOrdered(lim.maxRequests, lim.window);
    SkewedAppend(LaterRun(lim.maxRequests, lim.window), Call(K, Early(lim, d)), d);
  }

  lemma LateRunStands(lim: Limits, d: real)
    requires lim.maxRequests >= 2 && lim.window > 0.0 && d >= 0.0
    ensures Stands(lim, LateRun(lim, d), [lim.window, Early(lim, d)],
      Zeros(lim.maxRequests) + [lim.window] + [Early(lim, d)])
  {
    hide Stands, Decide, LaterRun, Zeros;
    LaterRunStands(lim, lim.window);
    Advance(lim, LaterRun(lim.maxRequests, lim.window), [lim.window], Zeros(lim.maxRequests) + [lim.window],
      Early(lim, d));
    EarlyAdmitted(lim, Early(lim, d));
  }

  lemma OverInLateRun(lim: Limits, d: real, len: real)
    requires lim.maxRequests >= 2 && lim.window > 0.0 && d >= 0.0 && len > 0.0 && len > lim.window - d
    ensures Overfull(lim, LateRun(lim, d), K, len, Early(lim, d))
  {
    hide Admitted, Table, LateRun, Within, Zeros;
    var n, early := lim.maxRequests, Early(lim, d);
    LateRunStands(lim, d);
    WithinAppend(Zeros(n) + [lim.window], early, early - len, early);
    WithinAppend(Zeros(n), lim.window, early - len, early);
    ZerosWithin(n, early - len, early);
  }

  lemma OverfullIsUnguarded(lim: Limits, d: real, len: real, calls: seq<Call>, x: real)
    requires Skewed(calls, d) && Overfull(lim, calls, K, len, x)
    ensures !Guarded(lim, d, len)
  {
    hide Skewed, Overfull;
  }

  lemma EmptyRun(lim: Limits, d: real, len: real)
    ensures Skewed([], d) && (lim.maxRequests < 0 ==> Overfull(lim, [], K, len, 0.0))
  {
  }

  lemma MoreSkew(calls: seq<Call>, d: real)
    requires Skewed(calls, 0.0) && d >= 0.0
    ensures Skewed(calls, d)
  {
  }

  /** Main result 2: a limiter guards exactly these lengths. With readings out of order by at most `d` and at least two
      requests allowed, that is the window less `d`; every longer interval is overfull on some run. A limit of one
      guards the whole window whatever the order. */
  lemma GuardedIff(lim: Limits, d: real, len: real)
    requires d >= 0.0
    ensures Guarded(lim, d, len) <==> Covered(lim, d, len)
  {
    hide Guarded, Skewed, Overfull, LateRun, LaterRun;
    if Covered(lim, d, len) {
      CoveredIsGuarded(lim, d, len);
    } else if lim.maxRequests >= 2 && lim.window > 0.0 {
      OverInLateRun(lim, d, len);
      LateRunSkewed(lim, d);
      OverfullIsUnguarded(lim, d, len, LateRun(lim, d), Early(lim, d));
    } else if lim.maxRequests < 0 {
      EmptyRun(lim, d, len);
      OverfullIsUnguarded(lim, d, len, [], 0.0);
    } else {
      var later := if lim.window > 0.0 then lim.window else 0.0;
      LaterRunOrdered(lim.maxRequests, later);
      MoreSkew(LaterRun(lim.maxRequests, later), d);
      OverAfterLater(lim, len);
      OverfullIsUnguarded(lim, d, len, LaterRun(lim.maxRequests, later), later);
    }
  }

  /** For instance, with two requests in 60 seconds: a reading 40 seconds late finds the list pruned for the future. */
  lemma OutOfOrderOverLimit()
    ensures var lim := Limits(2, 60.0);
      Skewed(LateRun(lim, 40.0), 40.0) && Overfull(lim, LateRun(lim, 40.0), K, 60.0, 20.0)
  {
    hide Overfull, Skewed, LateRun;
    var lim := Limits(2, 60.0);
    LateRunSkewed(lim, 40.0);
    OverInLateRun(lim, 40.0, 60.0);
  }

  /** Two endpoint names without a colon never share a list, whatever the addresses look like. */
  lemma KeysAreDistinct(e1: string, ip1: string, e2: string, ip2: string)
    requires ':' !in e1 && ':' !in e2
    ensures Key(e1, ip1) == Key(e2, ip2) <==> e1 == e2 && ip1 == ip2
  {
    if Key(e1, ip1) == Key(e2, ip2) {
      var k := Key(e1, ip1);
      assert k[|e1|] == ':' && k[|e2|] == ':';
      assert forall i :: 0 <= i < |e1| ==> k[i] == e1[i] && e1[i] != ':';
      assert forall i :: 0 <= i < |e2| ==> k[i] == e2[i] && e2[i] != ':';
      assert |e1| == |e2|;
      assert k[..|e1|] == e1 && k[..|e2|] == e2;
      assert k[|e1| + 1..] == ip1 && k[|e2| + 1..] == ip2;
    }
  }
}
