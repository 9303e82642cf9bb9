/** What holds of every chat call, whatever the candidates, their health and their answers. */
module GatewayTheorems {
  import opened Wrappers
  import opened GatewayModel

  // ---------------------------------------------------------------- stable priority order

  /** Candidate `i` comes before candidate `j`: smaller priority, or the same one and added earlier. */
  ghost predicate Before(cs: seq<Candidate>, i: nat, j: nat)
    requires i < |cs| && j < |cs|
  {
    cs[i].priority < cs[j].priority || (cs[i].priority == cs[j].priority && i < j)
  }

  ghost predicate InOrder(cs: seq<Candidate>, order: seq<nat>) {
    && (forall a :: 0 <= a < |order| ==> order[a] < |cs|)
    && (forall a, b :: 0 <= a < b < |order| ==> Before(cs, order[a], order[b]))
  }

  lemma {:induction false} InsertKeepsOrder(cs: seq<Candidate>, k: nat, order: seq<nat>)
    requires k < |cs| && InOrder(cs, order) && forall a :: 0 <= a < |order| ==> k < order[a]
    ensures InOrder(cs, InsertByPriority(cs, k, order))
  {
    if order == [] || cs[k].priority <= cs[order[0]].priority {
    } else {
      InsertKeepsOrder(cs, k, order[1..]);
      var r := InsertByPriority(cs, k, order);
      var rest := InsertByPriority(cs, k, order[1..]);
      assert r == [order[0]] + rest;
      forall b | 0 < b < |r| ensures Before(cs, r[0], r[b]) {
        assert r[b] == rest[b - 1] && rest[b - 1] in rest;
        if r[b] != k {
          var a :| 0 <= a < |order[1..]| && order[1..][a] == r[b];
          assert Before(cs, order[0], order[a + 1]);
        }
      }
    }
  }

  lemma {:induction false} OrderIsSorted(cs: seq<Candidate>, k: nat)
    requires k <= |cs|
    ensures InOrder(cs, Order(cs, k))
    decreases |cs| - k
  {
    if k < |cs| {
      OrderIsSorted(cs, k + 1);
      InsertKeepsOrder(cs, k, Order(cs, k + 1));
    }
  }

  /** The first match in a sorted order precedes every other match. */
  lemma {:induction false} FirstIsBeforeAll(cs: seq<Candidate>, order: seq<nat>, p: nat -> bool)
    requires InOrder(cs, order) && First(order, p).Some?
    ensures First(order, p).value < |cs|
    ensures forall i :: i in order && p(i) && i != First(order, p).value ==>
      i < |cs| && Before(cs, First(order, p).value, i)
  {
    var f := First(order, p).value;
    if p(order[0]) {
      forall i | i in order && i != f ensures i < |cs| && Before(cs, f, i) {
        var b :| 0 <= b < |order| && order[b] == i;
      }
    } else {
      FirstIsBeforeAll(cs, order[1..], p);
      forall i | i in order && p(i) && i != f ensures i < |cs| && Before(cs, f, i) {
        assert i in order[1..];
      }
    }
  }

  // ---------------------------------------------------------------- select

  /** An external provider may see this data. */
  ghost predicate MayLeave(ctx: PrivacyContext) {
    ctx.classification in {P0, P1, P2} && ctx.allowExternal && !ctx.requiresLocal
  }

  /** A candidate that may be asked and is healthy: by its cached health, or by a probe when none is cached. */
  ghost predicate Choosable(cs: seq<Candidate>, ctx: PrivacyContext, env: Env, i: nat) {
    && i < |cs| && (cs[i].provider.isExternal ==> MayLeave(ctx))
    && (cs[i].cached == Some(true) || (cs[i].cached.None? && env.probe(0, i)))
  }

  lemma TestChooses(cs: seq<Candidate>, ctx: PrivacyContext, env: Env)
    ensures forall i: nat :: Choosable(cs, ctx, env, i) <==> ChoiceTest(cs, ctx, env)(i)
    ensures forall i: nat :: Choosable(cs, ctx, env, i) ==> Eligible(cs, ctx, i)
    ensures forall i: nat :: Eligible(cs, ctx, i) <==> i < |cs| && (cs[i].provider.isExternal ==> MayLeave(ctx))
  {
  }

  /** Main result 1: the selected candidate is the least, in stable priority order, among the healthy eligible ones. */
  lemma SelectIsLeast(cs: seq<Candidate>, ctx: PrivacyContext, env: Env, p: nat)
    requires p < |cs|
    ensures (Select(cs, ctx, env).Selected? && Select(cs, ctx, env).index == p) <==>
      && Choosable(cs, ctx, env, p)
      && forall i: nat :: i < |cs| && i != p && Choosable(cs, ctx, env, i) ==> Before(cs, p, i)
  {
    TestChooses(cs, ctx, env);
    hide Choosable, Eligible, ChoiceTest, BlocksAt;
    OrderIsSorted(cs, 0);
    var test := ChoiceTest(cs, ctx, env);
    var f := First(Order(cs, 0), test);
    assert forall i: nat :: i < |cs| ==> i in Order(cs, 0);
    if f.Some? {
      FirstIsBeforeAll(cs, Order(cs, 0), test);
      assert Choosable(cs, ctx, env, f.value);
      assert Select(cs, ctx, env).Selected? && Select(cs, ctx, env).index == f.value;
    }
  }

  /** Main result 2: exactly when each routing error is reported. */
  lemma SelectErrors(cs: seq<Candidate>, ctx: PrivacyContext, env: Env)
    ensures Select(cs, ctx, env) == NoEligibleProvider <==> cs == []
    ensures Select(cs, ctx, env) == SensitiveExternalBlocked <==>
      cs != [] && !MayLeave(ctx) && forall i :: 0 <= i < |cs| ==> cs[i].provider.isExternal
    ensures Select(cs, ctx, env) == AllEligibleUnhealthy <==>
      && (exists i: nat :: i < |cs| && (cs[i].provider.isExternal ==> MayLeave(ctx)))
      && forall i: nat :: !Choosable(cs, ctx, env, i)
  {
    TestChooses(cs, ctx, env);
    hide Choosable, ChoiceTest;
    var test := ChoiceTest(cs, ctx, env);
    var f := First(Order(cs, 0), test);
    assert forall i: nat :: i < |cs| ==> i in Order(cs, 0);
    if cs != [] && !Eligible(cs, ctx, 0) { assert BlocksAt(cs, ctx, 0); }
    if forall i :: 0 <= i < |cs| ==> cs[i].provider.isExternal {
      assert forall i: nat :: i < |cs| ==> (Eligible(cs, ctx, i) <==> !ExternalBlocked(ctx));
    } else {
      var i :| 0 <= i < |cs| && !cs[i].provider.isExternal;
      assert Eligible(cs, ctx, i);
    }
  }

  /** A healthy local candidate whose name is not excluded. */
  ghost predicate Admissible(cs: seq<Candidate>, exclude: set<string>, env: Env, calls: nat, i: nat) {
    i < |cs| && !cs[i].provider.isExternal && cs[i].provider.name !in exclude && env.probe(calls, i)
  }

  /** Main result 3: a fallback is the least healthy local candidate that was not excluded. */
  lemma FallbackIsLeast(cs: seq<Candidate>, ctx: PrivacyContext, exclude: set<string>, env: Env, calls: nat, p: nat)
    requires p < |cs|
    ensures SelectForFallback(cs, ctx, exclude, env, calls) == Some(p) <==>
      && Admissible(cs, exclude, env, calls, p)
      && forall i: nat :: i < |cs| && i != p && Admissible(cs, exclude, env, calls, i) ==> Before(cs, p, i)
  {
    OrderIsSorted(cs, 0);
    var test := FallbackTest(cs, ctx, exclude, env, calls);
    var f := First(Order(cs, 0), test);
    assert forall i: nat :: i < |cs| ==> i in Order(cs, 0);
    assert forall i: nat :: Admissible(cs, exclude, env, calls, i) <==> test(i);
    if f.Some? {
      FirstIsBeforeAll(cs, Order(cs, 0), test);
      assert Admissible(cs, exclude, env, calls, f.value);
    }
  }

  /** The two forms of the gate agree on a context exactly when it is not a sensitive one that still allows external. */
  lemma GatesAgree(ctx: PrivacyContext)
    ensures (forall p: Provider :: PrivacyAllows(p, ctx) == AllowedByPrivacy(p, ctx.allowExternal, ctx.requiresLocal))
       <==> !(Sensitive(ctx.classification) && ctx.allowExternal && !ctx.requiresLocal)
    ensures var n := Normalise(ctx);
      forall p: Provider :: PrivacyAllows(p, n) == AllowedByPrivacy(p, n.allowExternal, n.requiresLocal)
  {
    var external := Provider("", true);
    if Sensitive(ctx.classification) && ctx.allowExternal && !ctx.requiresLocal {
      assert !PrivacyAllows(external, ctx) && AllowedByPrivacy(external, ctx.allowExternal, ctx.requiresLocal);
    }
  }

  // ---------------------------------------------------------------- every call of a run

  /** Calls after the first go to the first candidate again or to a local one. */
  ghost predicate StaysLocal(cs: seq<Candidate>, calls: seq<nat>) {
    forall k :: 0 <= k < |calls| ==>
      calls[k] < |cs| && (calls[k] == calls[0] || !cs[calls[k]].provider.isExternal)
  }

  /** The provider a retry goes to. */
  lemma RetryStaysLocal(cs: seq<Candidate>, ctx: PrivacyContext, env: Env, excluded: set<string>, calls: seq<nat>)
    requires |calls| > 0 && StaysLocal(cs, calls)
    ensures var fallback := SelectForFallback(cs, ctx, excluded, env, |calls|);
      StaysLocal(cs, calls + [if fallback.Some? then fallback.value else calls[0]])
  {
    var fallback := SelectForFallback(cs, ctx, excluded, env, |calls|);
    if fallback.Some? { FallbackIsLeast(cs, ctx, excluded, env, |calls|, fallback.value); }
  }

  lemma {:induction false} ValidationStaysLocal(cs: seq<Candidate>, ctx: PrivacyContext, env: Env, p: nat,
                                                attempt: nat, excluded: set<string>, calls: seq<nat>)
    requires p < |cs| && attempt <= MAX_VALIDATION_RETRIES && |calls| > 0 && calls[0] == p && StaysLocal(cs, calls)
    ensures var r := ValidateFrom(cs, ctx, env, p, attempt, excluded, calls);
      && |calls| <= |r.calls| <= |calls| + MAX_VALIDATION_RETRIES - attempt
      && r.calls[0] == p && StaysLocal(cs, r.calls)
      && !r.result.RoutingFailed?
      && (r.result == Answered <==> env.answer(|r.calls| - 1) == Completed(true))
    decreases MAX_VALIDATION_RETRIES - attempt
  {
    hide StaysLocal, SelectForFallback;
    if env.answer(|calls| - 1) != Completed(true) && attempt < MAX_VALIDATION_RETRIES {
      var fallback := SelectForFallback(cs, ctx, excluded, env, |calls|);
      var retry := if fallback.Some? then fallback.value else p;
      RetryStaysLocal(cs, ctx, env, excluded, calls);
      if env.answer(|calls|).Completed? {
        ValidationStaysLocal(cs, ctx, env, p, attempt + 1, excluded + {cs[retry].provider.name}, calls + [retry]);
      }
    }
  }

  lemma CallStaysLocal(cs: seq<Candidate>, ctx: PrivacyContext, allowFallback: bool, env: Env, p: nat)
    requires p < |cs|
    ensures var r := CallWithFallback(cs, ctx, allowFallback, env, p);
      && 1 <= |r.calls| <= 2 && r.calls[0] == p && StaysLocal(cs, r.calls)
      && (r.result == Answered <==> env.answer(|r.calls| - 1).Completed?)
      && (!allowFallback ==> |r.calls| == 1)
  {
    var fallback := SelectForFallback(cs, ctx, {cs[p].provider.name}, env, 1);
    if fallback.Some? { FallbackIsLeast(cs, ctx, {cs[p].provider.name}, env, 1, fallback.value); }
  }

  /** Main result 4: the shape of every run, along every path the providers can force. */
  lemma ChatCalls(cs: seq<Candidate>, req: Request, allowFallback: bool, env: Env)
    ensures var r := Chat(cs, req, allowFallback, env);
      && |r.calls| <= 4
      && (!req.hasSchema ==> |r.calls| <= 2)
      && (!allowFallback ==> |r.calls| <= 3)
      && (!allowFallback && !req.hasSchema ==> |r.calls| <= 1)
      && (r.calls == [] <==> !Select(cs, req.ctx, env).Selected?)
      && (r.calls == [] <==> r.result.RoutingFailed?)
      && StaysLocal(cs, r.calls)
  {
    if Select(cs, req.ctx, env).Selected? {
      var p := Select(cs, req.ctx, env).index;
      CallStaysLocal(cs, req.ctx, allowFallback, env, p);
      var called := CallWithFallback(cs, req.ctx, allowFallback, env, p);
      if called.result == Answered && req.hasSchema {
        ValidationStaysLocal(cs, req.ctx, env, p, 0, {cs[p].provider.name}, called.calls);
      }
    }
  }

  /** Main result 5: external providers are only ever called for P0-P2 data whose owner allows it. */
  lemma ExternalCallsAreAllowed(cs: seq<Candidate>, req: Request, allowFallback: bool, env: Env, k: nat)
    requires k < |Chat(cs, req, allowFallback, env).calls|
    ensures var i := Chat(cs, req, allowFallback, env).calls[k];
      i < |cs| && (cs[i].provider.isExternal ==>
        && req.ctx.classification in {P0, P1, P2}
        && req.ctx.allowExternal && !req.ctx.requiresLocal
        && Select(cs, req.ctx, env).Selected? && i == Select(cs, req.ctx, env).index)
  {
    ChatCalls(cs, req, allowFallback, env);
    var p := Select(cs, req.ctx, env).index;
    SelectIsLeast(cs, req.ctx, env, p);
    FirstCallIsSelected(cs, req, allowFallback, env);
  }

  lemma FirstCallIsSelected(cs: seq<Candidate>, req: Request, allowFallback: bool, env: Env)
    requires Select(cs, req.ctx, env).Selected?
    ensures var r := Chat(cs, req, allowFallback, env);
      r.calls != [] && r.calls[0] == Select(cs, req.ctx, env).index
  {
    var p := Select(cs, req.ctx, env).index;
    CallStaysLocal(cs, req.ctx, allowFallback, env, p);
    var called := CallWithFallback(cs, req.ctx, allowFallback, env, p);
    ValidationStaysLocal(cs, req.ctx, env, p, 0, {cs[p].provider.name}, called.calls);
  }

  /** Main result 6: a run answers exactly when its last call completed, with a valid answer if a schema asks
      for one. */
  lemma AnsweredIffLastCallGood(cs: seq<Candidate>, req: Request, allowFallback: bool, env: Env)
    requires Select(cs, req.ctx, env).Selected?
    ensures var r := Chat(cs, req, allowFallback, env);
      r.calls != [] && (r.result == Answered <==>
        env.answer(|r.calls| - 1).Completed? && (req.hasSchema ==> env.answer(|r.calls| - 1).valid))
  {
    hide Select, CallWithFallback, ValidateFrom, StaysLocal;
    var p := Select(cs, req.ctx, env).index;
    CallStaysLocal(cs, req.ctx, allowFallback, env, p);
    var called := CallWithFallback(cs, req.ctx, allowFallback, env, p);
    if called.result == Answered && req.hasSchema {
      ValidationStaysLocal(cs, req.ctx, env, p, 0, {cs[p].provider.name}, called.calls);
    }
  }

  ghost predicate NewName(cs: seq<Candidate>, calls: seq<nat>, base: nat, b: nat)
    requires base <= b < |calls|
  {
    calls[b] < |cs| && forall a :: base <= a < b ==>
      calls[a] < |cs| && cs[calls[a]].provider.name != cs[calls[b]].provider.name
  }

  /** From position `base` on, every call goes to `p` or to a name neither excluded nor called since. */
  ghost predicate MovesOn(cs: seq<Candidate>, p: nat, excluded: set<string>, base: nat, calls: seq<nat>) {
    forall b :: base <= b < |calls| ==>
      calls[b] == p || (NewName(cs, calls, base, b) && cs[calls[b]].provider.name !in excluded)
  }

  lemma MovesOnStep(cs: seq<Candidate>, p: nat, excluded: set<string>, base: nat, calls: seq<nat>)
    requires base < |calls| && calls[base] < |cs|
    requires calls[base] == p || cs[calls[base]].provider.name !in excluded
    requires MovesOn(cs, p, excluded + {cs[calls[base]].provider.name}, base + 1, calls)
    ensures MovesOn(cs, p, excluded, base, calls)
  {
    forall b | base < b < |calls| && calls[b] != p ensures NewName(cs, calls, base, b) {
      assert NewName(cs, calls, base + 1, b);
    }
  }

  /** Main result 7: a retry goes back to the selected provider or on to a name not tried since validation began. */
  lemma {:induction false} RetriesMoveOn(cs: seq<Candidate>, ctx: PrivacyContext, env: Env, p: nat,
                                         attempt: nat, excluded: set<string>, calls: seq<nat>)
    requires p < |cs| && attempt <= MAX_VALIDATION_RETRIES && |calls| > 0
    ensures var r := ValidateFrom(cs, ctx, env, p, attempt, excluded, calls);
      calls <= r.calls && MovesOn(cs, p, excluded, |calls|, r.calls)
    decreases MAX_VALIDATION_RETRIES - attempt
  {
    hide MovesOn, SelectForFallback;
    var r := ValidateFrom(cs, ctx, env, p, attempt, excluded, calls);
    if env.answer(|calls| - 1) == Completed(true) || attempt == MAX_VALIDATION_RETRIES {
      NothingToMove(cs, p, excluded, |calls|, calls);
    } else {
      var fallback := SelectForFallback(cs, ctx, excluded, env, |calls|);
      var retry := if fallback.Some? then fallback.value else p;
      if fallback.Some? { FallbackIsLeast(cs, ctx, excluded, env, |calls|, retry); }
      var calls' := calls + [retry];
      var excluded' := excluded + {cs[retry].provider.name};
      if env.answer(|calls|).Completed? {
        RetriesMoveOn(cs, ctx, env, p, attempt + 1, excluded', calls');
      } else {
        NothingToMove(cs, p, excluded', |calls'|, calls');
      }
      assert r.calls[|calls|] == calls'[|calls|] == retry;
      MovesOnStep(cs, p, excluded, |calls|, r.calls);
    }
  }

  lemma NothingToMove(cs: seq<Candidate>, p: nat, excluded: set<string>, base: nat, calls: seq<nat>)
    requires |calls| <= base
    ensures MovesOn(cs, p, excluded, base, calls)
  {
  }

  /** Four calls can happen: a failed call, its fallback and two retries. */
  lemma FourCallsHappen()
    ensures exists env: Env ::
      |Chat(DefaultCandidates(None, None), Request(PrivacyContext(P0, false, false), true), true, env).calls| == 4
  {
    var env := Env((k, i) => true, k => if k == 0 then TimedOut else Completed(false));
    var cs, ctx := DefaultCandidates(None, None), PrivacyContext(P0, false, false);
    SelectIsLeast(cs, ctx, env, 0);
    FallbackIsLeast(cs, ctx, {"rule"}, env, 1, 1);
    FallbackIsLeast(cs, ctx, {"rule"}, env, 2, 1);
    assert SelectForFallback(cs, ctx, {"rule", "mock"}, env, 3).None?;
    var calls := [0, 1];
    assert CallWithFallback(cs, ctx, true, env, 0) == Run(calls, Answered);
    assert {"rule"} + {"mock"} == {"rule", "mock"};
    assert ValidateFrom(cs, ctx, env, 0, 2, {"rule", "mock"} + {"rule"}, calls + [1] + [0]).calls == calls + [1] + [0];
    assert ValidateFrom(cs, ctx, env, 0, 1, {"rule", "mock"}, calls + [1]).calls == calls + [1] + [0];
    assert ValidateFrom(cs, ctx, env, 0, 0, {"rule"}, calls).calls == calls + [1] + [0];
    assert |Chat(cs, Request(ctx, true), true, env).calls| == 4;
  }

  lemma SomeFallback(cs: seq<Candidate>, ctx: PrivacyContext, exclude: set<string>, env: Env, calls: nat, i: nat)
    requires Admissible(cs, exclude, env, calls, i)
    ensures var f := SelectForFallback(cs, ctx, exclude, env, calls);
      f.Some? && !cs[f.value].provider.isExternal
  {
    assert i in Order(cs, 0);
    assert FallbackTest(cs, ctx, exclude, env, calls)(i);
    var f := SelectForFallback(cs, ctx, exclude, env, calls);
    FallbackIsLeast(cs, ctx, exclude, env, calls, f.value);
  }

  /** With the standard candidates a request is always routed. */
  lemma DefaultsAlwaysRoute(local: Option<Provider>, external: Option<Provider>, ctx: PrivacyContext, env: Env)
    requires BuiltinsHealthy(DefaultCandidates(local, external), env)
    ensures Select(DefaultCandidates(local, external), ctx, env).Selected?
  {
    var cs := DefaultCandidates(local, external);
    var rule := |cs| - 2;
    assert cs[rule].provider == RULE;
    assert Choosable(cs, ctx, env, rule);
    SelectErrors(cs, ctx, env);
  }

  /** With the standard candidates a call that times out or fails always gets a second one, to a local provider. */
  lemma DefaultsAlwaysFallBack(local: Option<Provider>, external: Option<Provider>, ctx: PrivacyContext, env: Env,
                               p: nat)
    requires p < |DefaultCandidates(local, external)|
    requires BuiltinsHealthy(DefaultCandidates(local, external), env)
    requires env.answer(0) in {TimedOut, GatewayFailed}
    ensures var cs := DefaultCandidates(local, external);
      var calls := CallWithFallback(cs, ctx, true, env, p).calls;
      |calls| == 2 && calls[1] < |cs| && !cs[calls[1]].provider.isExternal
  {
    var cs := DefaultCandidates(local, external);
    var exclude := {cs[p].provider.name};
    var other := if "rule" in exclude then |cs| - 1 else |cs| - 2;
    assert cs[|cs| - 2].provider == RULE && cs[|cs| - 1].provider == MOCK;
    assert Admissible(cs, exclude, env, 1, other);
    hide SelectForFallback;
    SomeFallback(cs, ctx, exclude, env, 1, other);
  }

  // ---------------------------------------------------------------- what the fallback does

  /** A healthy local candidate with another name than the one called first. */
  ghost predicate OtherLocal(cs: seq<Candidate>, env: Env, p: nat, i: nat) {
    && i < |cs| && p < |cs| && cs[i].provider.name != cs[p].provider.name
    && !cs[i].provider.isExternal && env.probe(1, i)
  }

  ghost predicate IsLeastOther(cs: seq<Candidate>, env: Env, p: nat, q: nat) {
    OtherLocal(cs, env, p, q)
    && forall i: nat :: i != q && OtherLocal(cs, env, p, i) ==> i < |cs| && q < |cs| && Before(cs, q, i)
  }

  predicate Failed(a: Answer) { a == TimedOut || a == GatewayFailed }

  lemma OtherIsFallback(cs: seq<Candidate>, env: Env, p: nat, i: nat)
    requires p < |cs|
    ensures OtherLocal(cs, env, p, i) <==> Admissible(cs, {cs[p].provider.name}, env, 1, i)
  {
  }

  lemma FallbackIsLeastOther(cs: seq<Candidate>, ctx: PrivacyContext, env: Env, p: nat)
    requires p < |cs|
    ensures var f := SelectForFallback(cs, ctx, {cs[p].provider.name}, env, 1);
      if f.Some? then IsLeastOther(cs, env, p, f.value) else forall i: nat :: !OtherLocal(cs, env, p, i)
  {
    hide OtherLocal, SelectForFallback, Admissible;
    var f := SelectForFallback(cs, ctx, {cs[p].provider.name}, env, 1);
    forall i: nat ensures OtherLocal(cs, env, p, i) <==>
      Admissible(cs, {cs[p].provider.name}, env, 1, i)
    {
      OtherIsFallback(cs, env, p, i);
    }
    if f.Some? {
      FallbackIsLeast(cs, ctx, {cs[p].provider.name}, env, 1, f.value);
      forall i: nat | i != f.value && OtherLocal(cs, env, p, i) ensures i < |cs| && Before(cs, f.value, i) {
        OtherInRange(cs, ctx, env, p, i);
      }
    } else {
      forall i: nat ensures !OtherLocal(cs, env, p, i) {
        if Admissible(cs, {cs[p].provider.name}, env, 1, i) {
          SomeFallback(cs, ctx, {cs[p].provider.name}, env, 1, i);
        }
      }
    }
  }

  lemma OtherInRange(cs: seq<Candidate>, ctx: PrivacyContext, env: Env, p: nat, i: nat)
    requires OtherLocal(cs, env, p, i)
    ensures i < |cs| && p < |cs|
  {
  }

  /** Main result 8: a call is repeated elsewhere exactly when fallback is allowed, the call timed out or failed, and
      some healthy local candidate has another name; it then goes to the first such candidate, and the answer of the
      last call decides. */
  lemma SecondCallIff(cs: seq<Candidate>, ctx: PrivacyContext, allowFallback: bool, env: Env, p: nat)
    requires p < |cs|
    ensures var r := CallWithFallback(cs, ctx, allowFallback, env, p);
      && 1 <= |r.calls| <= 2 && r.calls[0] == p
      && (|r.calls| == 2 <==>
            allowFallback && Failed(env.answer(0)) && exists i: nat :: OtherLocal(cs, env, p, i))
      && (|r.calls| == 2 ==> IsLeastOther(cs, env, p, r.calls[1]))
      && var last := env.answer(|r.calls| - 1);
         r.result == if last.Completed? then Answered else ProviderRaised(last)
  {
    hide SelectForFallback, OtherLocal, Before;
    FallbackIsLeastOther(cs, ctx, env, p);
  }

  /** The same for a whole run: when the selected provider times out or fails, its second call is that fallback. */
  lemma ChatFallsBackIff(cs: seq<Candidate>, req: Request, allowFallback: bool, env: Env)
    requires Select(cs, req.ctx, env).Selected? && Failed(env.answer(0))
    ensures var r, p := Chat(cs, req, allowFallback, env), Select(cs, req.ctx, env).index;
      && (|r.calls| >= 2 <==> allowFallback && exists i: nat :: OtherLocal(cs, env, p, i))
      && (|r.calls| >= 2 ==> IsLeastOther(cs, env, p, r.calls[1]))
  {
    hide Select, CallWithFallback, ValidateFrom, OtherLocal, Before;
    var p := Select(cs, req.ctx, env).index;
    SecondCallIff(cs, req.ctx, allowFallback, env, p);
    var called := CallWithFallback(cs, req.ctx, allowFallback, env, p);
    if called.result == Answered && req.hasSchema {
      ValidationExtends(cs, req.ctx, env, p, 0, {cs[p].provider.name}, called.calls);
    }
  }

  lemma ValidationExtends(cs: seq<Candidate>, ctx: PrivacyContext, env: Env, p: nat, attempt: nat,
                          excluded: set<string>, calls: seq<nat>)
    requires p < |cs| && attempt <= MAX_VALIDATION_RETRIES && |calls| > 0
    ensures calls <= ValidateFrom(cs, ctx, env, p, attempt, excluded, calls).calls
  {
    hide ValidateFrom;
    RetriesMoveOn(cs, ctx, env, p, attempt, excluded, calls);
  }

  /** A failing local node falls back to the rule engine, not to the mock provider and not to itself. */
  lemma LocalFailureFallsBackToRule(local: Provider, external: Option<Provider>, req: Request, env: Env)
    requires BuiltinsHealthy(DefaultCandidates(Some(local), external), env)
    requires !local.isExternal && local.name != "rule" && (external.Some? ==> external.value.isExternal)
    requires env.probe(0, 0) && Failed(env.answer(0))
    ensures var cs := DefaultCandidates(Some(local), external);
      var r := Chat(cs, req, true, env);
      |r.calls| >= 2 && r.calls[0] == 0 && r.calls[1] < |cs| && cs[r.calls[1]].provider == RULE
  {
    var cs := DefaultCandidates(Some(local), external);
    var rule := |cs| - 2;
    assert cs[rule].provider == RULE && cs[0].provider == local && cs[|cs| - 1].provider == MOCK;
    assert Choosable(cs, req.ctx, env, 0);
    forall i: nat | i < |cs| && i != 0 ensures Before(cs, 0, i) {}
    SelectIsLeast(cs, req.ctx, env, 0);
    FirstCallIsSelected(cs, req, true, env);
    assert OtherLocal(cs, env, 0, rule);
    hide Chat, Select;
    ChatFallsBackIff(cs, req, true, env);
    var q := Chat(cs, req, true, env).calls[1];
    assert q != rule ==> Before(cs, q, rule);
  }

  // ---------------------------------------------------------------- what validation does

  /** The retry at position `b` goes to the first healthy local candidate with a name not to be avoided, or back to the
      selected provider when there is none. */
  ghost predicate RetriedRight(cs: seq<Candidate>, env: Env, p: nat, names: set<string>, b: nat, q: nat)
  {
    (Admissible(cs, names, env, b, q)
     && forall i: nat :: i != q && Admissible(cs, names, env, b, i) ==>
          i < |cs| && q < |cs| && Before(cs, q, i))
    || (q == p && forall i: nat :: !Admissible(cs, names, env, b, i))
  }

  lemma RetryIsRight(cs: seq<Candidate>, ctx: PrivacyContext, env: Env, p: nat, names: set<string>, b: nat)
    ensures var f := SelectForFallback(cs, ctx, names, env, b);
      RetriedRight(cs, env, p, names, b, if f.Some? then f.value else p)
  {
    hide SelectForFallback, Admissible;
    var f := SelectForFallback(cs, ctx, names, env, b);
    if f.Some? {
      FallbackIsLeast(cs, ctx, names, env, b, f.value);
      forall i: nat | i != f.value && Admissible(cs, names, env, b, i)
        ensures i < |cs| && Before(cs, f.value, i)
      {
        FallbackInRange(cs, names, env, b, i);
      }
    } else {
      forall i: nat ensures !Admissible(cs, names, env, b, i) {
        if Admissible(cs, names, env, b, i) { SomeFallback(cs, ctx, names, env, b, i); }
      }
    }
  }

  lemma FallbackInRange(cs: seq<Candidate>, names: set<string>, env: Env, b: nat, i: nat)
    requires Admissible(cs, names, env, b, i)
    ensures i < |cs|
  {
  }

  /** A run of retries after the calls up to `base`: each goes where it should, each follows an answer that was complete
      but invalid, and the last answer ends it unless both retries are spent. */
  ghost predicate RetriesRight(cs: seq<Candidate>, env: Env, p: nat, names: set<string>, spent: nat, calls: seq<nat>,
                               r: Run)
    requires |calls| > 0
    decreases if spent < MAX_VALIDATION_RETRIES then MAX_VALIDATION_RETRIES - spent else 0
  {
    var answer := env.answer(|calls| - 1);
    if !answer.Completed? then r == Run(calls, ProviderRaised(answer))
    else if answer.valid then r == Run(calls, Answered)
    else if spent >= MAX_VALIDATION_RETRIES then r == Run(calls, StructuredOutputInvalid)
    else
      exists q: nat ::
        && q < |cs| && RetriedRight(cs, env, p, names, |calls|, q)
        && RetriesRight(cs, env, p, names + {cs[q].provider.name}, spent + 1, calls + [q], r)
  }

  lemma {:induction false} ValidationRetries(cs: seq<Candidate>, ctx: PrivacyContext, env: Env, p: nat, attempt: nat,
                                             names: set<string>, calls: seq<nat>)
    requires p < |cs| && attempt <= MAX_VALIDATION_RETRIES && |calls| > 0 && env.answer(|calls| - 1).Completed?
    ensures RetriesRight(cs, env, p, names, attempt, calls,
      ValidateFrom(cs, ctx, env, p, attempt, names, calls))
    decreases MAX_VALIDATION_RETRIES - attempt
  {
    hide RetriedRight, SelectForFallback;
    if env.answer(|calls| - 1) != Completed(true) && attempt < MAX_VALIDATION_RETRIES {
      var f := SelectForFallback(cs, ctx, names, env, |calls|);
      var q := if f.Some? then f.value else p;
      RetryIsRight(cs, ctx, env, p, names, |calls|);
      if env.answer(|calls|).Completed? {
        ValidationRetries(cs, ctx, env, p, attempt + 1, names + {cs[q].provider.name}, calls + [q]);
      }
      assert RetriesRight(cs, env, p, names + {cs[q].provider.name}, attempt + 1, calls + [q],
        ValidateFrom(cs, ctx, env, p, attempt, names, calls));
    }
  }

  /** Main result 9: with a schema, once a call or its fallback completed, the run is exactly these retries, which avoid
      the selected provider's name from the start; without one, the first complete answer is returned. */
  lemma ChatValidates(cs: seq<Candidate>, req: Request, allowFallback: bool, env: Env)
    requires Select(cs, req.ctx, env).Selected?
    ensures var r, p := Chat(cs, req, allowFallback, env), Select(cs, req.ctx, env).index;
      var n := if env.answer(0).Completed? then 1 else 2;
      |r.calls| >= n && env.answer(n - 1).Completed? ==>
        if req.hasSchema
        then RetriesRight(cs, env, p, {cs[p].provider.name}, 0, r.calls[..n], r)
        else |r.calls| == n && r.result == Answered
  {
    hide Select, CallWithFallback, ValidateFrom, OtherLocal, Before, RetriesRight, IsLeastOther;
    var p := Select(cs, req.ctx, env).index;
    SecondCallIff(cs, req.ctx, allowFallback, env, p);
    var called := CallWithFallback(cs, req.ctx, allowFallback, env, p);
    if called.result == Answered && req.hasSchema {
      ValidationExtends(cs, req.ctx, env, p, 0, {cs[p].provider.name}, called.calls);
      ValidationRetries(cs, req.ctx, env, p, 0, {cs[p].provider.name}, called.calls);
      var r := Chat(cs, req, allowFallback, env);
      assert r.calls[..|called.calls|] == called.calls;
    }
  }

  /** What building a request does to its privacy context: sensitive data loses external processing, the most sensitive
      is kept local, and nothing else changes. */
  lemma NormaliseTightens(ctx: PrivacyContext)
    ensures var n := Normalise(ctx);
      && n.classification == ctx.classification
      && n.allowExternal == (ctx.allowExternal && ctx.classification in {P0, P1, P2})
      && n.requiresLocal == (ctx.requiresLocal || ctx.classification == P4)
  {
  }

  /** Among the standard candidates a healthy local node is chosen, else a healthy external one where it is allowed,
      else the rule engine. */
  lemma DefaultsChoose(local: Option<Provider>, external: Option<Provider>, ctx: PrivacyContext, env: Env)
    requires BuiltinsHealthy(DefaultCandidates(local, external), env)
    requires (local.Some? ==> !local.value.isExternal) && (external.Some? ==> external.value.isExternal)
    ensures var cs := DefaultCandidates(local, external);
      var s := Select(cs, ctx, env);
      var e := if local.Some? then 1 else 0;
      s.Selected? && s.index < |cs| && cs[s.index].provider ==
        if local.Some? && env.probe(0, 0) then local.value
        else if external.Some? && ctx.classification in {P0, P1, P2} && ctx.allowExternal && !ctx.requiresLocal
                && env.probe(0, e) then external.value
        else RULE
  {
    var cs := DefaultCandidates(local, external);
    var e := if local.Some? then 1 else 0;
    var rule := |cs| - 2;
    assert cs[rule].provider == RULE && cs[|cs| - 1].provider == MOCK;
    var p := if local.Some? && env.probe(0, 0) then 0
      else if external.Some? && !ExternalBlocked(ctx) && env.probe(0, e) then e
      else rule;
    assert Choosable(cs, ctx, env, p);
    forall i: nat | i < |cs| && i != p && Choosable(cs, ctx, env, i) ensures Before(cs, p, i) {}
    SelectIsLeast(cs, ctx, env, p);
  }
}
