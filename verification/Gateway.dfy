/**
 Routing of one chat call: the privacy gate, the choice of a provider, the fallback after a failed
 call and the retries after a malformed structured answer.

 A provider is whatever it answers: `Env` decides the answer of every call and the result of every
 health probe, so a statement over all `Env` covers every behaviour of the providers.
 */
module GatewayModel {
  import opened Wrappers

  datatype Classification = P0 | P1 | P2 | P3 | P4

  datatype PrivacyContext =
    PrivacyContext(classification: Classification, allowExternal: bool, requiresLocal: bool)

  datatype Provider = Provider(name: string, isExternal: bool)

  /** A provider with its routing priority (lower is tried first) and the health seen by `select`. */
  datatype Candidate = Candidate(provider: Provider, priority: int, cached: Option<bool>)

  datatype Answer = Completed(valid: bool) | TimedOut | GatewayFailed | Crashed

  /** `probe(k, i)`: health of candidate `i` after `k` provider calls; `answer(k)`: what call `k` does. */
  datatype Env = Env(probe: (nat, nat) -> bool, answer: nat -> Answer)

  datatype Request = Request(ctx: PrivacyContext, hasSchema: bool)

  datatype Selection =
    | Selected(index: nat, blockedExternal: bool)
    | SensitiveExternalBlocked
    | NoEligibleProvider
    | AllEligibleUnhealthy

  datatype Result =
    | Answered
    | RoutingFailed(selection: Selection)
    | ProviderRaised(answer: Answer)
    | StructuredOutputInvalid

  /** The candidates called, in order, and how the request ended. */
  datatype Run = Run(calls: seq<nat>, result: Result)

  const MAX_VALIDATION_RETRIES := 2

  // ---------------------------------------------------------------- the privacy gate

  predicate Sensitive(c: Classification) {
    c == P3 || c == P4
  }

  /** What the request model does to a context when it is built. */
  function Normalise(ctx: PrivacyContext): PrivacyContext {
    var a := if ctx.classification == P4 then ctx.(requiresLocal := true, allowExternal := false) else ctx;
    if Sensitive(ctx.classification) then a.(allowExternal := false) else a
  }

  predicate ExternalBlocked(ctx: PrivacyContext) {
    Sensitive(ctx.classification) || !ctx.allowExternal || ctx.requiresLocal
  }

  predicate PrivacyAllows(p: Provider, ctx: PrivacyContext) {
    !(p.isExternal && (ExternalBlocked(ctx) || ctx.requiresLocal))
  }

  predicate WouldBlockSensitiveExternal(p: Provider, ctx: PrivacyContext) {
    p.isExternal && ExternalBlocked(ctx)
  }

  /** The second form of the gate, next to the provider protocol. */
  predicate AllowedByPrivacy(p: Provider, allowExternal: bool, requiresLocal: bool) {
    !(p.isExternal && (!allowExternal || requiresLocal))
  }

  // ---------------------------------------------------------------- selection

  /** Puts index `k` before the first index whose priority is not smaller. */
  function InsertByPriority(cs: seq<Candidate>, k: nat, order: seq<nat>): (r: seq<nat>)
    requires k < |cs| && forall j :: 0 <= j < |order| ==> order[j] < |cs|
    ensures |r| == |order| + 1
    ensures forall i :: i in r <==> i == k || i in order
  {
    if order == [] then [k]
    else if cs[k].priority <= cs[order[0]].priority then [k] + order
    else [order[0]] + InsertByPriority(cs, k, order[1..])
  }

  /** The indices from `k` on, stably sorted by priority. */
  function Order(cs: seq<Candidate>, k: nat): (r: seq<nat>)
    requires k <= |cs|
    ensures forall i :: i in r <==> k <= i < |cs|
    ensures forall j :: 0 <= j < |r| ==> r[j] in r && k <= r[j] < |cs|
    decreases |cs| - k
  {
    if k == |cs| then []
    else
      var inserted := InsertByPriority(cs, k, Order(cs, k + 1));
      assert forall j :: 0 <= j < |inserted| ==> inserted[j] in inserted;
      inserted
  }

  /** The first index of `order` that satisfies `p`. */
  function First(order: seq<nat>, p: nat -> bool): (r: Option<nat>)
    ensures r.Some? ==> r.value in order && p(r.value)
    ensures r.None? ==> forall i :: i in order ==> !p(i)
  {
    if order == [] then None
    else if p(order[0]) then Some(order[0])
    else First(order[1..], p)
  }

  /** Health as `select` sees it: the cached value, or a probe when nothing is cached. */
  predicate CachedHealth(cs: seq<Candidate>, env: Env, i: nat) {
    i < |cs| && if cs[i].cached.Some? then cs[i].cached.value else env.probe(0, i)
  }

  predicate Eligible(cs: seq<Candidate>, ctx: PrivacyContext, i: nat) {
    i < |cs| && PrivacyAllows(cs[i].provider, ctx)
  }

  predicate BlocksAt(cs: seq<Candidate>, ctx: PrivacyContext, i: nat) {
    i < |cs| && !Eligible(cs, ctx, i) && WouldBlockSensitiveExternal(cs[i].provider, ctx)
  }

  function ChoiceTest(cs: seq<Candidate>, ctx: PrivacyContext, env: Env): nat -> bool {
    (i: nat) => Eligible(cs, ctx, i) && CachedHealth(cs, env, i)
  }

  function Select(cs: seq<Candidate>, ctx: PrivacyContext, env: Env): (r: Selection)
    ensures r.Selected? ==> r.index < |cs|
  {
    var blocked := exists i: nat :: i < |cs| && BlocksAt(cs, ctx, i);
    if forall i: nat :: i < |cs| ==> !Eligible(cs, ctx, i) then
      if blocked then SensitiveExternalBlocked else NoEligibleProvider
    else
      match First(Order(cs, 0), ChoiceTest(cs, ctx, env))
      case Some(i) => Selected(i, blocked)
      case None => AllEligibleUnhealthy
  }

  predicate CanFallBackTo(cs: seq<Candidate>, ctx: PrivacyContext, exclude: set<string>, env: Env, calls: nat, i: nat) {
    && i < |cs|
    && cs[i].provider.name !in exclude
    && !cs[i].provider.isExternal
    && PrivacyAllows(cs[i].provider, ctx)
    && env.probe(calls, i)
  }

  function FallbackTest(cs: seq<Candidate>, ctx: PrivacyContext, exclude: set<string>, env: Env, calls: nat)
    : nat -> bool
  {
    (i: nat) => CanFallBackTo(cs, ctx, exclude, env, calls, i)
  }

  function SelectForFallback(cs: seq<Candidate>, ctx: PrivacyContext, exclude: set<string>, env: Env, calls: nat)
    : (r: Option<nat>)
    ensures r.Some? ==> r.value < |cs|
  {
    First(Order(cs, 0), FallbackTest(cs, ctx, exclude, env, calls))
  }

  // ---------------------------------------------------------------- the pipeline

  /** Calls candidate `p` once, and once more a local fallback when the call times out or fails. */
  function CallWithFallback(cs: seq<Candidate>, ctx: PrivacyContext, allowFallback: bool, env: Env, p: nat): Run
    requires p < |cs|
  {
    match env.answer(0)
    case Completed(_) => Run([p], Answered)
    case Crashed => Run([p], ProviderRaised(Crashed))
    case failed =>
      var fallback := if allowFallback then SelectForFallback(cs, ctx, {cs[p].provider.name}, env, 1) else None;
      if fallback.None? then Run([p], ProviderRaised(failed))
      else
        Run([p, fallback.value], if env.answer(1).Completed? then Answered else ProviderRaised(env.answer(1)))
  }

  /** Validation from `attempt` on; the last of `calls` gave the answer under validation. */
  function ValidateFrom(cs: seq<Candidate>, ctx: PrivacyContext, env: Env, p: nat, attempt: nat,
                        excluded: set<string>, calls: seq<nat>): Run
    requires p < |cs| && attempt <= MAX_VALIDATION_RETRIES && |calls| > 0
    decreases MAX_VALIDATION_RETRIES - attempt
  {
    if env.answer(|calls| - 1) == Completed(true) then Run(calls, Answered)
    else if attempt == MAX_VALIDATION_RETRIES then Run(calls, StructuredOutputInvalid)
    else
      var fallback := SelectForFallback(cs, ctx, excluded, env, |calls|);
      var retry := if fallback.Some? then fallback.value else p;
      var calls' := calls + [retry];
      if env.answer(|calls|).Completed? then
        ValidateFrom(cs, ctx, env, p, attempt + 1, excluded + {cs[retry].provider.name}, calls')
      else Run(calls', ProviderRaised(env.answer(|calls|)))
  }

  function Chat(cs: seq<Candidate>, req: Request, allowFallback: bool, env: Env): Run {
    match Select(cs, req.ctx, env)
    case Selected(p, _) =>
      var called := CallWithFallback(cs, req.ctx, allowFallback, env, p);
      if called.result == Answered && req.hasSchema then
        ValidateFrom(cs, req.ctx, env, p, 0, {cs[p].provider.name}, called.calls)
      else called
    case failed => Run([], RoutingFailed(failed))
  }

  // ---------------------------------------------------------------- the standard candidates

  const RULE := Provider("rule", false)
  const MOCK := Provider("mock", false)

  function DefaultCandidates(local: Option<Provider>, external: Option<Provider>): seq<Candidate> {
    (if local.Some? then [Candidate(local.value, 10, None)] else [])
    + (if external.Some? then [Candidate(external.value, 50, None)] else [])
    + [Candidate(RULE, 80, None), Candidate(MOCK, 90, None)]
  }

  /** Rule and mock providers compute in process: every probe finds them healthy. */
  ghost predicate BuiltinsHealthy(cs: seq<Candidate>, env: Env) {
    forall k: nat, i: nat :: i < |cs| && cs[i].provider in {RULE, MOCK} ==> env.probe(k, i)
  }
}
