/** The routing policy and the gateway service, as the loops they are. */
module GatewayServiceModel {
  import opened Wrappers
  import opened GatewayModel
  import opened GatewayTheorems

  /** What candidate `i` has cached after a selection: its health, if `select` had to ask for it on its way to `r`. */
  ghost function CacheAfter(cs: seq<Candidate>, ctx: PrivacyContext, env: Env, r: Selection, i: nat): Option<bool>
    requires i < |cs| && (r.Selected? ==> r.index < |cs|)
  {
    if cs[i].cached.Some? then cs[i].cached
    else if Eligible(cs, ctx, i) && (r.Selected? ==> i == r.index || Before(cs, i, r.index)) then Some(env.probe(0, i))
    else None
  }

  /** The eligible indices of `order`. */
  ghost function Keep(cs: seq<Candidate>, ctx: PrivacyContext, order: seq<nat>): (r: seq<nat>)
    ensures forall i :: i in r <==> i in order && Eligible(cs, ctx, i)
  {
    if order == [] then []
    else
      var rest, last := order[..|order| - 1], order[|order| - 1];
      assert order == rest + [last];
      if Eligible(cs, ctx, last) then Keep(cs, ctx, rest) + [last] else Keep(cs, ctx, rest)
  }

  ghost predicate Blocks(cs: seq<Candidate>, ctx: PrivacyContext, order: seq<nat>) {
    order != [] && (Blocks(cs, ctx, order[..|order| - 1]) || BlocksAt(cs, ctx, order[|order| - 1]))
  }

  lemma {:induction false} KeepInOrder(cs: seq<Candidate>, ctx: PrivacyContext, order: seq<nat>)
    requires InOrder(cs, order)
    ensures InOrder(cs, Keep(cs, ctx, order))
  {
    if order != [] {
      var rest, last := order[..|order| - 1], order[|order| - 1];
      KeepInOrder(cs, ctx, rest);
      forall a | 0 <= a < |Keep(cs, ctx, rest)| ensures Before(cs, Keep(cs, ctx, rest)[a], last) {
        assert Keep(cs, ctx, rest)[a] in rest;
        var b :| 0 <= b < |rest| && rest[b] == Keep(cs, ctx, rest)[a];
        assert Before(cs, order[b], order[|order| - 1]);
      }
    }
  }

  lemma {:induction false} BlocksIff(cs: seq<Candidate>, ctx: PrivacyContext, order: seq<nat>)
    ensures Blocks(cs, ctx, order) <==> exists i :: i in order && BlocksAt(cs, ctx, i)
  {
    if order != [] {
      BlocksIff(cs, ctx, order[..|order| - 1]);
      assert order == order[..|order| - 1] + [order[|order| - 1]];
    }
  }

  /** The candidates after the health of those in `asked` was cached. */
  ghost function Warm(cs: seq<Candidate>, env: Env, asked: seq<nat>): (r: seq<Candidate>)
    ensures |r| == |cs|
    ensures forall i :: 0 <= i < |cs| ==> r[i] == if i in asked then Warmed(cs, env, i) else cs[i]
  {
    seq(|cs|, i requires 0 <= i < |cs| => if i in asked then Warmed(cs, env, i) else cs[i])
  }

  ghost function Warmed(cs: seq<Candidate>, env: Env, i: nat): Candidate
    requires i < |cs|
  {
    cs[i].(cached := Some(CachedHealth(cs, env, i)))
  }

  lemma WarmNext(cs: seq<Candidate>, env: Env, eligible: seq<nat>, n: nat)
    requires n < |eligible| && InOrder(cs, eligible)
    ensures Warm(cs, env, eligible[..n])[eligible[n]] == cs[eligible[n]]
    ensures Warm(cs, env, eligible[..n + 1])
         == Warm(cs, env, eligible[..n])[eligible[n] := Warmed(cs, env, eligible[n])]
  {
    assert forall m :: 0 <= m < n ==> Before(cs, eligible[m], eligible[n]);
    assert eligible[n] !in eligible[..n];
    assert eligible[..n + 1] == eligible[..n] + [eligible[n]];
  }

  class RoutingPolicy {
    var candidates: seq<Candidate>

    constructor (candidates: seq<Candidate>)
      ensures this.candidates == candidates
    {
      this.candidates := candidates;
    }

    method AddCandidate(c: Candidate)
      modifies this
      ensures candidates == old(candidates) + [c]
    {
      candidates := candidates + [c];
    }

    method Select(ctx: PrivacyContext, env: Env) returns (r: Selection)
      modifies this
      ensures r == GatewayModel.Select(old(candidates), ctx, env)
      ensures |candidates| == |old(candidates)|
      ensures forall i :: 0 <= i < |candidates| ==>
        candidates[i] == old(candidates)[i].(cached := CacheAfter(old(candidates), ctx, env, r, i))
    {
      hide InOrder, GatewayModel.Select, CacheAfter;
      var cs := candidates;
      var eligible, blockedExternal := Partition(ctx);
      if eligible == [] {
        NothingEligible(cs, ctx, env);
        return if blockedExternal then SensitiveExternalBlocked else NoEligibleProvider;
      }
      for n := 0 to |eligible|
        invariant candidates == Warm(cs, env, eligible[..n])
        invariant forall m :: 0 <= m < n ==> !CachedHealth(cs, env, eligible[m])
      {
        var i := eligible[n];
        assert Eligible(cs, ctx, i);
        WarmNext(cs, env, eligible, n);
        var healthy := if candidates[i].cached.Some? then candidates[i].cached.value else env.probe(0, i);
        candidates := candidates[i := candidates[i].(cached := Some(healthy))];
        if healthy {
          FirstHealthyIsSelected(cs, ctx, env, eligible, n);
          return Selected(i, blockedExternal);
        }
      }
      AllAsked(cs, ctx, env, eligible);
      r := AllEligibleUnhealthy;
    }

    /** The eligible candidates in stable priority order, and whether an external one was blocked. */
    method Partition(ctx: PrivacyContext) returns (eligible: seq<nat>, blockedExternal: bool)
      ensures InOrder(candidates, eligible)
      ensures forall i: nat :: i in eligible <==> Eligible(candidates, ctx, i)
      ensures blockedExternal <==> exists i: nat :: BlocksAt(candidates, ctx, i)
    {
      hide InOrder;
      var order := Order(candidates, 0);
      eligible, blockedExternal := [], false;
      for n := 0 to |order|
        invariant eligible == Keep(candidates, ctx, order[..n])
        invariant blockedExternal <==> Blocks(candidates, ctx, order[..n])
      {
        assert order[..n + 1][..n] == order[..n];
        if PrivacyAllows(candidates[order[n]].provider, ctx) {
          eligible := eligible + [order[n]];
        } else if WouldBlockSensitiveExternal(candidates[order[n]].provider, ctx) {
          blockedExternal := true;
        }
      }
      assert order[..|order|] == order;
      OrderIsSorted(candidates, 0);
      KeepInOrder(candidates, ctx, order);
      BlocksIff(candidates, ctx, order);
      assert forall i: nat :: i in order <==> i < |candidates|;
    }

    method SelectForFallback(ctx: PrivacyContext, exclude: set<string>, env: Env, calls: nat) returns (r: Option<nat>)
      ensures r == GatewayModel.SelectForFallback(candidates, ctx, exclude, env, calls)
    {
      var order := Order(candidates, 0);
      ghost var test := FallbackTest(candidates, ctx, exclude, env, calls);
      for n := 0 to |order|
        invariant First(order, test) == First(order[n..], test)
      {
        FirstUnfold(order, n, test);
        assert test(order[n]) == CanFallBackTo(candidates, ctx, exclude, env, calls, order[n]);
        var provider := candidates[order[n]].provider;
        if provider.name in exclude { continue; }
        if provider.isExternal { continue; }
        if !PrivacyAllows(provider, ctx) { continue; }
        if env.probe(calls, order[n]) { return Some(order[n]); }
      }
      r := None;
    }
  }

  lemma FirstUnfold(order: seq<nat>, n: nat, p: nat -> bool)
    requires n < |order|
    ensures First(order[n..], p) == if p(order[n]) then Some(order[n]) else First(order[n + 1..], p)
  {
    assert order[n..][1..] == order[n + 1..];
  }

  lemma NothingEligible(cs: seq<Candidate>, ctx: PrivacyContext, env: Env)
    requires forall i: nat :: !Eligible(cs, ctx, i)
    ensures GatewayModel.Select(cs, ctx, env)
         == if exists i: nat :: BlocksAt(cs, ctx, i) then SensitiveExternalBlocked else NoEligibleProvider
    ensures forall i: nat, r: Selection :: i < |cs| && !r.Selected? ==> cs[i].cached == CacheAfter(cs, ctx, env, r, i)
  {
  }

  lemma AllAsked(cs: seq<Candidate>, ctx: PrivacyContext, env: Env, eligible: seq<nat>)
    requires eligible != []
    requires forall i: nat :: i in eligible <==> Eligible(cs, ctx, i)
    requires forall m :: 0 <= m < |eligible| ==> !CachedHealth(cs, env, eligible[m])
    ensures GatewayModel.Select(cs, ctx, env) == AllEligibleUnhealthy
    ensures forall i :: 0 <= i < |cs| ==>
      Warm(cs, env, eligible[..|eligible|])[i] == cs[i].(cached := CacheAfter(cs, ctx, env, AllEligibleUnhealthy, i))
  {
    assert eligible[..|eligible|] == eligible;
    assert Eligible(cs, ctx, eligible[0]);
    SelectErrors(cs, ctx, env);
  }

  lemma FirstHealthyIsSelected(cs: seq<Candidate>, ctx: PrivacyContext, env: Env, eligible: seq<nat>, n: nat)
    requires InOrder(cs, eligible) && n < |eligible|
    requires forall i: nat :: i in eligible <==> Eligible(cs, ctx, i)
    requires forall m :: 0 <= m < n ==> !CachedHealth(cs, env, eligible[m])
    requires CachedHealth(cs, env, eligible[n])
    ensures eligible[n] < |cs|
    ensures var r := Selected(eligible[n], exists i: nat :: BlocksAt(cs, ctx, i));
      && GatewayModel.Select(cs, ctx, env) == r
      && forall i :: 0 <= i < |cs| ==>
           Warm(cs, env, eligible[..n + 1])[i] == cs[i].(cached := CacheAfter(cs, ctx, env, r, i))
  {
    TestChooses(cs, ctx, env);
    hide Choosable;
    forall i: nat | i < |cs| && i != eligible[n] && Choosable(cs, ctx, env, i) ensures Before(cs, eligible[n], i) {
      var m :| 0 <= m < |eligible| && eligible[m] == i;
    }
    assert eligible[n] in eligible;
    SelectIsLeast(cs, ctx, env, eligible[n]);
    forall i: nat | i < |cs| && i in eligible
      ensures i in eligible[..n + 1] <==> i == eligible[n] || Before(cs, i, eligible[n])
    {
      var m :| 0 <= m < |eligible| && eligible[m] == i;
      if m <= n { assert eligible[..n + 1][m] == i; }
    }
  }

  // ---------------------------------------------------------------- fallbacks do not look at the cache

  ghost predicate SameProviders(cs: seq<Candidate>, cs': seq<Candidate>) {
    |cs| == |cs'| && forall i :: 0 <= i < |cs| ==> cs'[i] == cs[i].(cached := cs'[i].cached)
  }

  lemma {:induction false} InsertIgnoresCache(cs: seq<Candidate>, cs': seq<Candidate>, k: nat, order: seq<nat>)
    requires SameProviders(cs, cs') && k < |cs| && forall j :: 0 <= j < |order| ==> order[j] < |cs|
    ensures InsertByPriority(cs, k, order) == InsertByPriority(cs', k, order)
  {
    if order != [] && cs[k].priority > cs[order[0]].priority {
      InsertIgnoresCache(cs, cs', k, order[1..]);
    }
  }

  lemma {:induction false} OrderIgnoresCache(cs: seq<Candidate>, cs': seq<Candidate>, k: nat)
    requires SameProviders(cs, cs') && k <= |cs|
    ensures Order(cs, k) == Order(cs', k)
    decreases |cs| - k
  {
    hide InsertByPriority;
    if k < |cs| {
      OrderIgnoresCache(cs, cs', k + 1);
      InsertIgnoresCache(cs, cs', k, Order(cs, k + 1));
    }
  }

  lemma {:induction false} FirstExtensional(order: seq<nat>, p: nat -> bool, q: nat -> bool)
    requires forall i :: p(i) == q(i)
    ensures First(order, p) == First(order, q)
  {
    if order != [] { FirstExtensional(order[1..], p, q); }
  }

  lemma FallbackIgnoresCache(cs: seq<Candidate>, cs': seq<Candidate>, ctx: PrivacyContext, exclude: set<string>,
                             env: Env, calls: nat)
    requires SameProviders(cs, cs')
    ensures SelectForFallback(cs, ctx, exclude, env, calls) == SelectForFallback(cs', ctx, exclude, env, calls)
  {
    OrderIgnoresCache(cs, cs', 0);
    FirstExtensional(Order(cs, 0), FallbackTest(cs, ctx, exclude, env, calls),
                     FallbackTest(cs', ctx, exclude, env, calls));
  }

  lemma CallIgnoresCache(cs: seq<Candidate>, cs': seq<Candidate>, ctx: PrivacyContext, allowFallback: bool, env: Env,
                         p: nat)
    requires SameProviders(cs, cs') && p < |cs|
    ensures GatewayModel.CallWithFallback(cs, ctx, allowFallback, env, p)
         == GatewayModel.CallWithFallback(cs', ctx, allowFallback, env, p)
  {
    FallbackIgnoresCache(cs, cs', ctx, {cs[p].provider.name}, env, 1);
  }

  lemma {:induction false} ValidationIgnoresCache(cs: seq<Candidate>, cs': seq<Candidate>, ctx: PrivacyContext,
                                                  env: Env, p: nat, attempt: nat, excluded: set<string>,
                                                  calls: seq<nat>)
    requires SameProviders(cs, cs') && p < |cs| && attempt <= MAX_VALIDATION_RETRIES && |calls| > 0
    ensures ValidateFrom(cs, ctx, env, p, attempt, excluded, calls)
         == ValidateFrom(cs', ctx, env, p, attempt, excluded, calls)
    decreases MAX_VALIDATION_RETRIES - attempt
  {
    if attempt < MAX_VALIDATION_RETRIES {
      FallbackIgnoresCache(cs, cs', ctx, excluded, env, |calls|);
      var fallback := SelectForFallback(cs, ctx, excluded, env, |calls|);
      var retry := if fallback.Some? then fallback.value else p;
      ValidationIgnoresCache(cs, cs', ctx, env, p, attempt + 1, excluded + {cs[retry].provider.name}, calls + [retry]);
    }
  }

  class ModelGatewayService {
    const policy: RoutingPolicy
    const allowFallback: bool

    constructor (policy: RoutingPolicy, allowFallback: bool)
      ensures this.policy == policy && this.allowFallback == allowFallback
    {
      this.policy, this.allowFallback := policy, allowFallback;
    }

    method CallWithFallback(ctx: PrivacyContext, env: Env, p: nat) returns (r: Run)
      requires p < |policy.candidates|
      ensures r == GatewayModel.CallWithFallback(policy.candidates, ctx, allowFallback, env, p)
    {
      var answer := env.answer(0);
      if answer.Completed? { return Run([p], Answered); }
      if answer.Crashed? || !allowFallback { return Run([p], ProviderRaised(answer)); }
      var fallback := policy.SelectForFallback(ctx, {policy.candidates[p].provider.name}, env, 1);
      if fallback.None? { return Run([p], ProviderRaised(answer)); }
      var second := env.answer(1);
      r := Run([p, fallback.value], if second.Completed? then Answered else ProviderRaised(second));
    }

    /** Validates the last answer, asking again at most twice; names already asked are excluded as it goes. */
    method ValidateWithRetry(ctx: PrivacyContext, env: Env, p: nat, called: seq<nat>) returns (r: Run)
      requires p < |policy.candidates| && |called| > 0
      ensures r == ValidateFrom(policy.candidates, ctx, env, p, 0, {policy.candidates[p].provider.name}, called)
    {
      ghost var cs := policy.candidates;
      var excluded: set<string> := {policy.candidates[p].provider.name};
      var calls: seq<nat> := called;
      for attempt := 0 to MAX_VALIDATION_RETRIES + 1
        invariant |calls| > 0 && policy.candidates == cs
        invariant attempt <= MAX_VALIDATION_RETRIES ==>
          ValidateFrom(cs, ctx, env, p, 0, {cs[p].provider.name}, called)
          == ValidateFrom(cs, ctx, env, p, attempt, excluded, calls)
        invariant attempt == MAX_VALIDATION_RETRIES + 1 ==>
          ValidateFrom(cs, ctx, env, p, 0, {cs[p].provider.name}, called) == Run(calls, StructuredOutputInvalid)
      {
        if env.answer(|calls| - 1) == Completed(true) { return Run(calls, Answered); }
        if attempt < MAX_VALIDATION_RETRIES {
          var fallback := policy.SelectForFallback(ctx, excluded, env, |calls|);
          var retry: nat := if fallback.Some? then fallback.value else p;
          excluded := excluded + {policy.candidates[retry].provider.name};
          var answer := env.answer(|calls|);
          calls := calls + [retry];
          if !answer.Completed? { return Run(calls, ProviderRaised(answer)); }
        }
      }
      r := Run(calls, StructuredOutputInvalid);
    }

    method Chat(req: Request, env: Env) returns (r: Run)
      modifies policy
      ensures r == GatewayModel.Chat(old(policy.candidates), req, allowFallback, env)
    {
      ghost var before := policy.candidates;
      var selection := policy.Select(req.ctx, env);
      if !selection.Selected? { return Run([], RoutingFailed(selection)); }
      var p := selection.index;
      CallIgnoresCache(before, policy.candidates, req.ctx, allowFallback, env, p);
      r := CallWithFallback(req.ctx, env, p);
      ValidationIgnoresCache(before, policy.candidates, req.ctx, env, p, 0, {before[p].provider.name}, r.calls);
      if r.result == Answered && req.hasSchema {
        r := ValidateWithRetry(req.ctx, env, p, r.calls);
      }
    }
  }
}
