/**
 The circuit breaker of a node and the health checker that drives it.

 The breaker moves from open to half-open only when somebody reads it, so its stored state depends
 on who looked and when. The results below say what it comes to: a function of the calls recorded.
 */
module BreakerModel {
  import opened Wrappers

  datatype CircuitState = Closed | Open | HalfOpen
  datatype Config = Config(failureThreshold: int, recoveryTimeout: real)
  datatype Breaker = Breaker(failureCount: nat, state: CircuitState, lastFailureAt: Option<real>)

  const FRESH := Breaker(0, Closed, None)

  /** Reading the state: an open breaker turns half-open once it has cooled down. */
  function Look(cfg: Config, b: Breaker, now: real): Breaker {
    if b.state == Open && b.lastFailureAt.Some? && now - b.lastFailureAt.value >= cfg.recoveryTimeout
    then b.(state := HalfOpen) else b
  }

  function RecordFailure(cfg: Config, b: Breaker, now: real): Breaker {
    var count := b.failureCount + 1;
    Breaker(count, if b.state == HalfOpen || count >= cfg.failureThreshold then Open else b.state, Some(now))
  }

  /** What happened to a breaker, and when. */
  datatype Event = Looked(at: real) | Succeeded(at: real) | Failed(at: real)

  function Apply(cfg: Config, b: Breaker, e: Event): Breaker {
    match e
    case Looked(at) => Look(cfg, b, at)
    case Succeeded(_) => FRESH
    case Failed(at) => RecordFailure(cfg, b, at)
  }

  function After(cfg: Config, history: seq<Event>): Breaker {
    if history == [] then FRESH
    else Apply(cfg, After(cfg, history[..|history| - 1]), history[|history| - 1])
  }

  predicate InOrder(history: seq<Event>, now: real) {
    && (forall i, j :: 0 <= i < j < |history| ==> history[i].at <= history[j].at)
    && (forall i :: 0 <= i < |history| ==> history[i].at <= now)
  }

  // ---------------------------------------------------------------- the history alone

  /** Failures since the last success. */
  function Trailing(history: seq<Event>): nat {
    if history == [] then 0
    else
      var rest := Trailing(history[..|history| - 1]);
      match history[|history| - 1]
      case Looked(_) => rest
      case Succeeded(_) => 0
      case Failed(_) => rest + 1
  }

  function LastFailure(history: seq<Event>): (r: Option<real>)
    ensures r.None? <==> Trailing(history) == 0
  {
    if history == [] then None
    else
      match history[|history| - 1]
      case Looked(_) => LastFailure(history[..|history| - 1])
      case Succeeded(_) => None
      case Failed(at) => Some(at)
  }

  predicate BelowThreshold(cfg: Config, k: nat) {
    k == 0 || k < cfg.failureThreshold
  }

  function StateByHistory(cfg: Config, history: seq<Event>, now: real): CircuitState {
    if BelowThreshold(cfg, Trailing(history)) then Closed
    else if now - LastFailure(history).value >= cfg.recoveryTimeout then HalfOpen
    else Open
  }

  /** The stored state may lag behind the history, but only until the next look. */
  ghost predicate Lags(cfg: Config, b: Breaker, history: seq<Event>, now: real) {
    && b.failureCount == Trailing(history)
    && b.lastFailureAt == LastFailure(history)
    && if BelowThreshold(cfg, Trailing(history)) then b.state == Closed
       else b.state == Open || (b.state == HalfOpen && now - LastFailure(history).value >= cfg.recoveryTimeout)
  }

  lemma {:induction false} StoredStateLags(cfg: Config, history: seq<Event>, now: real)
    requires InOrder(history, now)
    ensures Lags(cfg, After(cfg, history), history, now)
  {
    if history != [] {
      var rest, e := history[..|history| - 1], history[|history| - 1];
      StoredStateLags(cfg, rest, e.at);
    }
  }

  /** Main result 1: what a reader sees is a function of the recorded calls, whoever looked before. */
  lemma ObservedIsHistory(cfg: Config, history: seq<Event>, now: real)
    requires InOrder(history, now)
    ensures Look(cfg, After(cfg, history), now).state == StateByHistory(cfg, history, now)
  {
    StoredStateLags(cfg, history, now);
  }

  // ---------------------------------------------------------------- the half-open state

  /** Whether a caller that asks at this time is let through. */
  predicate Passes(cfg: Config, history: seq<Event>, at: real) {
    Look(cfg, After(cfg, history), at).state != Open
  }

  /** Callers asking one after the other. */
  function Gates(times: seq<real>): (r: seq<Event>)
    ensures |r| == |times| && forall i :: 0 <= i < |r| ==> r[i] == Looked(times[i])
  {
    seq(|times|, i requires 0 <= i < |times| => Looked(times[i]))
  }

  lemma {:induction false} GatesDoNotCount(history: seq<Event>, times: seq<real>)
    ensures Trailing(history + Gates(times)) == Trailing(history)
    ensures LastFailure(history + Gates(times)) == LastFailure(history)
  {
    if times == [] {
      assert history + Gates([]) == history;
    } else {
      var n := |times| - 1;
      GatesDoNotCount(history, times[..n]);
      var all := history + Gates(times);
      assert all[..|all| - 1] == history + Gates(times[..n]);
    }
  }

  predicate Rising(times: seq<real>, from: real, to: real) {
    && (forall i, j :: 0 <= i < j < |times| ==> times[i] <= times[j])
    && (forall i :: 0 <= i < |times| ==> from <= times[i] <= to)
  }

  lemma GatesInOrder(history: seq<Event>, times: seq<real>, from: real, to: real)
    requires InOrder(history, from) && Rising(times, from, to) && from <= to
    ensures InOrder(history + Gates(times), to)
  {
    var all := history + Gates(times);
    forall i, j | 0 <= i < j < |all| ensures all[i].at <= all[j].at {
      if i < |history| <= j { assert all[j].at >= from >= all[i].at; }
    }
  }

  /** Main result 2: after a history that shows half-open every caller is let through, however many, until a result
      is recorded. */
  lemma HalfOpenAdmitsAll(cfg: Config, history: seq<Event>, from: real, times: seq<real>, at: real)
    requires InOrder(history, from) && StateByHistory(cfg, history, from) == HalfOpen
    requires Rising(times, from, at) && from <= at
    ensures Passes(cfg, history + Gates(times), at)
    ensures StateByHistory(cfg, history + Gates(times), at) == HalfOpen
  {
    GatesInOrder(history, times, from, at);
    GatesDoNotCount(history, times);
    ObservedIsHistory(cfg, history + Gates(times), at);
    hide After, Look, Trailing, LastFailure;
  }

  lemma InOrderWith(history: seq<Event>, e: Event, gate: real, now: real)
    requires InOrder(history, gate) && gate <= e.at <= now
    ensures InOrder(history + [e], now)
  {
  }

  lemma FailureRecorded(cfg: Config, history: seq<Event>, from: real, times: seq<real>, r: real)
    requires InOrder(history, from) && Rising(times, from, r) && from <= r
    ensures var h := history + Gates(times) + [Failed(r)];
      InOrder(h, r) && Trailing(h) == Trailing(history) + 1 && LastFailure(h) == Some(r)
  {
    var before := history + Gates(times);
    GatesInOrder(history, times, from, r);
    GatesDoNotCount(history, times);
    hide Gates, Rising;
    InOrderWith(before, Failed(r), r, r);
    hide InOrder;
    assert (before + [Failed(r)])[..|before|] == before;
  }

  /** After a failing result the breaker lets nobody through until it has cooled down again. */
  lemma FailureCloses(cfg: Config, history: seq<Event>, from: real, times: seq<real>, r: real, later: seq<real>,
                      at: real)
    requires InOrder(history, from) && StateByHistory(cfg, history, from) == HalfOpen
    requires Rising(times, from, r) && from <= r && Rising(later, r, at) && r <= at
    ensures Passes(cfg, history + Gates(times) + [Failed(r)] + Gates(later), at) <==> at - r >= cfg.recoveryTimeout
  {
    var h := history + Gates(times) + [Failed(r)];
    FailureRecorded(cfg, history, from, times, r);
    GatesInOrder(h, later, r, at);
    GatesDoNotCount(h, later);
    ObservedIsHistory(cfg, h + Gates(later), at);
    hide After, Look, Trailing, LastFailure;
  }

  /** How many of the callers after `history` are let through. */
  function Through(cfg: Config, history: seq<Event>, times: seq<real>): nat {
    if times == [] then 0
    else
      var n := |times| - 1;
      Through(cfg, history, times[..n]) + if Passes(cfg, history + Gates(times[..n]), times[n]) then 1 else 0
  }

  lemma {:induction false} AllThrough(cfg: Config, history: seq<Event>, from: real, times: seq<real>, to: real)
    requires InOrder(history, from) && StateByHistory(cfg, history, from) == HalfOpen
    requires Rising(times, from, to)
    ensures Through(cfg, history, times) == |times|
  {
    hide StateByHistory, InOrder, Passes;
    if times != [] {
      var n := |times| - 1;
      AllThrough(cfg, history, from, times[..n], to);
      HalfOpenAdmitsAll(cfg, history, from, times[..n], times[n]);
    }
  }

  lemma {:induction false} NoneThrough(cfg: Config, history: seq<Event>, from: real, times: seq<real>, r: real,
                                       later: seq<real>, to: real)
    requires InOrder(history, from) && StateByHistory(cfg, history, from) == HalfOpen
    requires Rising(times, from, r) && from <= r && Rising(later, r, to) && to - r < cfg.recoveryTimeout
    ensures Through(cfg, history + Gates(times) + [Failed(r)], later) == 0
  {
    hide StateByHistory, InOrder, Passes, Gates;
    if later != [] {
      var n := |later| - 1;
      NoneThrough(cfg, history, from, times, r, later[..n], to);
      FailureCloses(cfg, history, from, times, r, later[..n], later[n]);
    }
  }

  /** Main result 3: of the callers before and after the failing result of a half-open period exactly those before it
      are let through. So a single probe goes out if and only if one caller asked before its result was recorded. */
  lemma SingleProbeIff(cfg: Config, history: seq<Event>, from: real, times: seq<real>, r: real, later: seq<real>,
                       to: real)
    requires InOrder(history, from) && StateByHistory(cfg, history, from) == HalfOpen
    requires Rising(times, from, r) && from <= r && Rising(later, r, to) && to - r < cfg.recoveryTimeout
    ensures var total := Through(cfg, history, times) + Through(cfg, history + Gates(times) + [Failed(r)], later);
      total == |times| && (total == 1 <==> |times| == 1)
  {
    hide *;
    AllThrough(cfg, history, from, times, r);
    NoneThrough(cfg, history, from, times, r, later, to);
  }

  // ---------------------------------------------------------------- health checks

  datatype NodeStatus = Online | Degraded | Offline

  /** The clock readings of one check: at the gate, when the result is recorded, when the state is reported. */
  datatype Clock = Clock(gate: real, record: real, report: real)

  datatype Report = Report(status: NodeStatus, probed: bool, circuit: CircuitState)

  predicate Ticks(c: Clock) {
    c.gate <= c.record <= c.report
  }

  /** One health check against a node that answers well or not. */
  function Check(cfg: Config, b: Breaker, answersWell: bool, c: Clock): (Breaker, Report) {
    var gated := Look(cfg, b, c.gate);
    if gated.state == Open then
      var seen := Look(cfg, gated, c.report);
      (seen, Report(Offline, false, seen.state))
    else
      var recorded := if answersWell then FRESH else RecordFailure(cfg, gated, c.record);
      var seen := Look(cfg, recorded, c.report);
      var status :=
        if answersWell && (seen.state == Closed || seen.state == HalfOpen) then Online
        else if seen.state == Open then Offline
        else Degraded;
      (seen, Report(status, true, seen.state))
  }

  /** The events one check adds to the history. */
  function CheckEvents(cfg: Config, b: Breaker, answersWell: bool, c: Clock): seq<Event> {
    if Look(cfg, b, c.gate).state == Open then [Looked(c.gate), Looked(c.report)]
    else [Looked(c.gate), if answersWell then Succeeded(c.record) else Failed(c.record), Looked(c.report)]
  }

  lemma AfterOneMore(cfg: Config, history: seq<Event>, e: Event)
    ensures After(cfg, history + [e]) == Apply(cfg, After(cfg, history), e)
  {
    assert (history + [e])[..|history|] == history;
  }

  /** A check is its events, so everything proved of histories holds of checks. */
  lemma CheckIsItsEvents(cfg: Config, history: seq<Event>, answersWell: bool, c: Clock)
    ensures Check(cfg, After(cfg, history), answersWell, c).0
         == After(cfg, history + CheckEvents(cfg, After(cfg, history), answersWell, c))
  {
    var e := CheckEvents(cfg, After(cfg, history), answersWell, c);
    AfterOneMore(cfg, history, e[0]);
    AfterOneMore(cfg, history + [e[0]], e[1]);
    if |e| == 3 {
      AfterOneMore(cfg, history + [e[0]] + [e[1]], e[2]);
      assert history + e == history + [e[0]] + [e[1]] + [e[2]];
    } else {
      assert history + e == history + [e[0]] + [e[1]];
    }
  }

  /** Main result 4: the reported status, from the recorded calls alone. */
  lemma StatusByHistory(cfg: Config, history: seq<Event>, answersWell: bool, c: Clock)
    requires InOrder(history, c.gate) && Ticks(c)
    ensures var r := Check(cfg, After(cfg, history), answersWell, c).1;
      var k := Trailing(history);
      && r.probed == (StateByHistory(cfg, history, c.gate) != Open)
      && (r.status == Online <==> r.probed && answersWell)
      && (r.status == Offline <==>
            !r.probed
            || (!answersWell && !BelowThreshold(cfg, k + 1) && c.report - c.record < cfg.recoveryTimeout))
  {
    ObservedIsHistory(cfg, history, c.gate);
    StoredStateLags(cfg, history, c.gate);
  }

  function Outcome(answersWell: bool, at: real): Event {
    if answersWell then Succeeded(at) else Failed(at)
  }

  /** A check's result leaves what it would leave without the look at the gate. */
  lemma LookedBeforeOutcome(cfg: Config, b: Breaker, gate: real, answersWell: bool, at: real)
    ensures Apply(cfg, Look(cfg, b, gate), Outcome(answersWell, at)) == Apply(cfg, b, Outcome(answersWell, at))
  {
  }

  /** What the check's three steps come to. */
  lemma CircuitReported(cfg: Config, b: Breaker, answersWell: bool, c: Clock)
    ensures var r := Check(cfg, b, answersWell, c).1;
      && r.probed == (Look(cfg, b, c.gate).state != Open)
      && r.circuit == Look(cfg, if r.probed then Apply(cfg, b, Outcome(answersWell, c.record)) else b, c.report).state
  {
    LookedBeforeOutcome(cfg, b, c.gate, answersWell, c.record);
  }

  /** The circuit a check reports is the one a reader would see then, from the recorded calls with its own result. */
  lemma CircuitByHistory(cfg: Config, history: seq<Event>, answersWell: bool, c: Clock)
    requires InOrder(history, c.gate) && Ticks(c)
    ensures var r := Check(cfg, After(cfg, history), answersWell, c).1;
      && r.probed == (StateByHistory(cfg, history, c.gate) != Open)
      && r.circuit == StateByHistory(cfg, if r.probed then history + [Outcome(answersWell, c.record)] else history,
                                     c.report)
  {
    hide After, Look, Apply, Check, StateByHistory;
    var e := Outcome(answersWell, c.record);
    CircuitReported(cfg, After(cfg, history), answersWell, c);
    ObservedIsHistory(cfg, history, c.gate);
    ObservedIsHistory(cfg, history, c.report);
    AfterOneMore(cfg, history, e);
    InOrderWith(history, e, c.gate, c.report);
    ObservedIsHistory(cfg, history + [e], c.report);
  }

  // ---------------------------------------------------------------- a node that never answers

  /** What can reach the breaker of a dead node: checks, failing calls and looks. */
  datatype DeadStep = DeadCheck(clock: Clock) | DeadCall(at: real) | DeadLook(at: real)

  function Start(s: DeadStep): real {
    if s.DeadCheck? then s.clock.gate else s.at
  }

  function End(s: DeadStep): real {
    if s.DeadCheck? then s.clock.report else s.at
  }

  predicate DeadRun(steps: seq<DeadStep>) {
    && (forall i :: 0 <= i < |steps| && steps[i].DeadCheck? ==> Ticks(steps[i].clock))
    && (forall i, j :: 0 <= i < j < |steps| ==> End(steps[i]) <= Start(steps[j]))
  }

  function DeadBreaker(cfg: Config, steps: seq<DeadStep>): Breaker {
    if steps == [] then FRESH
    else
      var b, s := DeadBreaker(cfg, steps[..|steps| - 1]), steps[|steps| - 1];
      match s
      case DeadCheck(c) => Check(cfg, b, false, c).0
      case DeadCall(at) => RecordFailure(cfg, b, at)
      case DeadLook(at) => Look(cfg, b, at)
  }

  /** The times at which probes were recorded as failed. */
  function Probes(cfg: Config, steps: seq<DeadStep>): seq<real> {
    if steps == [] then []
    else
      var rest, s := steps[..|steps| - 1], steps[|steps| - 1];
      if s.DeadCheck? && Check(cfg, DeadBreaker(cfg, rest), false, s.clock).1.probed
      then Probes(cfg, rest) + [s.clock.record] else Probes(cfg, rest)
  }

  function Allowance(cfg: Config): nat {
    if cfg.failureThreshold < 1 then 1 else cfg.failureThreshold
  }

  /** Past the allowance the probes are at least a cool-down apart. */
  ghost predicate Spaced(cfg: Config, probes: seq<real>) {
    var m := Allowance(cfg);
    && (forall i :: 0 <= i < |probes| ==> probes[0] <= probes[i])
    && (|probes| >= m ==>
          (|probes| - m) as real * cfg.recoveryTimeout <= probes[|probes| - 1] - probes[m - 1])
  }

  ghost predicate DeadInv(cfg: Config, b: Breaker, probes: seq<real>, now: real) {
    && Spaced(cfg, probes)
    && |probes| <= b.failureCount
    && (b.lastFailureAt.None? <==> b.failureCount == 0)
    && (b.lastFailureAt.Some? ==> b.lastFailureAt.value <= now)
    && (forall i :: 0 <= i < |probes| ==> b.lastFailureAt.Some? && probes[i] <= b.lastFailureAt.value)
    && if BelowThreshold(cfg, b.failureCount) then b.state == Closed
       else b.state == Open || (b.state == HalfOpen && now - b.lastFailureAt.value >= cfg.recoveryTimeout)
  }

  lemma SpacedAppend(cfg: Config, probes: seq<real>, t: real)
    requires Spaced(cfg, probes)
    requires forall i :: 0 <= i < |probes| ==> probes[i] <= t
    requires |probes| >= Allowance(cfg) ==> t - probes[|probes| - 1] >= cfg.recoveryTimeout
    ensures Spaced(cfg, probes + [t])
  {
    var m := Allowance(cfg);
    if |probes| >= m {
      var n := (|probes| - m) as real;
      assert (|probes + [t]| - m) as real == n + 1.0;
      assert (n + 1.0) * cfg.recoveryTimeout == n * cfg.recoveryTimeout + cfg.recoveryTimeout;
    }
  }

  lemma DeadCheckKeepsInv(cfg: Config, b: Breaker, probes: seq<real>, now: real, c: Clock)
    requires DeadInv(cfg, b, probes, now) && Ticks(c) && now <= c.gate
    ensures var (b', r) := Check(cfg, b, false, c);
      DeadInv(cfg, b', if r.probed then probes + [c.record] else probes, c.report)
  {
    if Look(cfg, b, c.gate).state != Open { SpacedAppend(cfg, probes, c.record); }
  }

  lemma {:induction false} DeadRunInv(cfg: Config, steps: seq<DeadStep>)
    requires DeadRun(steps)
    ensures steps != [] ==> DeadInv(cfg, DeadBreaker(cfg, steps), Probes(cfg, steps), End(steps[|steps| - 1]))
    ensures steps == [] ==> DeadBreaker(cfg, steps) == FRESH && Probes(cfg, steps) == []
  {
    if steps != [] {
      var rest, s := steps[..|steps| - 1], steps[|steps| - 1];
      DeadRunInv(cfg, rest);
      var now := if rest == [] then Start(s) else End(rest[|rest| - 1]);
      assert DeadInv(cfg, DeadBreaker(cfg, rest), Probes(cfg, rest), now);
      hide Spaced;
      if s.DeadCheck? { DeadCheckKeepsInv(cfg, DeadBreaker(cfg, rest), Probes(cfg, rest), now, s.clock); }
    }
  }

  /** Main result 5: `n` probes of a dead node over a span `T` satisfy `n <= threshold + floor(T / recovery)`. */
  lemma ProbesAreBounded(cfg: Config, steps: seq<DeadStep>)
    requires DeadRun(steps) && cfg.recoveryTimeout > 0.0
    ensures var probes := Probes(cfg, steps);
      |probes| > 0 ==>
        var span := probes[|probes| - 1] - probes[0];
        span >= 0.0 && |probes| <= Allowance(cfg) + (span / cfg.recoveryTimeout).Floor
  {
    hide Probes, DeadBreaker, Look;
    DeadRunInv(cfg, steps);
    var probes, m := Probes(cfg, steps), Allowance(cfg);
    if |probes| > 0 {
      assert Spaced(cfg, probes);
      var span := probes[|probes| - 1] - probes[0];
      var extra := if |probes| >= m then |probes| - m else 0;
      assert extra as real * cfg.recoveryTimeout <= span;
      DivideBound(extra, span, cfg.recoveryTimeout);
    }
  }

  lemma DivideBound(n: int, span: real, r: real)
    requires r > 0.0 && n as real * r <= span
    ensures n <= (span / r).Floor
  {
    assert n as real <= span / r;
  }

  // ---------------------------------------------------------------- checks that overlap in time

  /** What reaches the breaker of a dead node when checks may overlap: a check at its gate, the failure of a probe let
      through earlier, a failing call, a look. */
  datatype LiveStep = Gate(at: real) | ProbeFailed(at: real) | CallFailed(at: real) | LookedAt(at: real)

  /** `gates`: when probes were let through. `recorded`: how many of them have failed so far. */
  datatype Flight = Flight(b: Breaker, gates: seq<real>, recorded: nat)

  function Fly(cfg: Config, f: Flight, s: LiveStep): Flight {
    match s
    case Gate(at) =>
      var b := Look(cfg, f.b, at);
      if b.state == Open then f.(b := b) else f.(b := b, gates := f.gates + [at])
    case ProbeFailed(at) =>
      if f.recorded >= |f.gates| then f
      else f.(b := RecordFailure(cfg, f.b, at), recorded := f.recorded + 1)
    case CallFailed(at) => f.(b := RecordFailure(cfg, f.b, at))
    case LookedAt(at) => f.(b := Look(cfg, f.b, at))
  }

  function Flown(cfg: Config, steps: seq<LiveStep>): Flight {
    if steps == [] then Flight(FRESH, [], 0)
    else Fly(cfg, Flown(cfg, steps[..|steps| - 1]), steps[|steps| - 1])
  }

  predicate TimesRise(steps: seq<LiveStep>) {
    forall i, j :: 0 <= i < j < |steps| ==> steps[i].at <= steps[j].at
  }

  /** Never more than `c` probes without a result. */
  ghost predicate AtMostInFlight(cfg: Config, steps: seq<LiveStep>, c: nat) {
    forall n: nat :: n <= |steps| ==> |Flown(cfg, steps[..n]).gates| - Flown(cfg, steps[..n]).recorded <= c
  }

  /** Past the allowance, a probe and the one `c` places later are a cool-down apart. */
  ghost predicate SpacedBy(cfg: Config, gates: seq<real>, c: nat) {
    && (forall i, j :: 0 <= i < j < |gates| ==> gates[i] <= gates[j])
    && forall i: nat :: Allowance(cfg) - 1 <= i && i + c < |gates| ==> gates[i + c] - gates[i] >= cfg.recoveryTimeout
  }

  ghost predicate FlightInv(cfg: Config, f: Flight, c: nat, now: real) {
    && f.recorded <= |f.gates| <= f.recorded + c
    && f.recorded <= f.b.failureCount
    && SpacedBy(cfg, f.gates, c)
    && (forall i :: 0 <= i < |f.gates| ==> f.gates[i] <= now)
    && (f.b.lastFailureAt.None? <==> f.b.failureCount == 0)
    && (f.b.lastFailureAt.Some? ==> f.b.lastFailureAt.value <= now)
    && (f.recorded > 0 ==> f.gates[f.recorded - 1] <= f.b.lastFailureAt.value)
    && if BelowThreshold(cfg, f.b.failureCount) then f.b.state == Closed
       else f.b.state == Open || (f.b.state == HalfOpen && now - f.b.lastFailureAt.value >= cfg.recoveryTimeout)
  }

  lemma SpacedByAppend(cfg: Config, gates: seq<real>, c: nat, t: real)
    requires SpacedBy(cfg, gates, c) && forall i :: 0 <= i < |gates| ==> gates[i] <= t
    requires c > 0 && (|gates| - c >= Allowance(cfg) - 1 ==> t - gates[|gates| - c] >= cfg.recoveryTimeout)
    ensures SpacedBy(cfg, gates + [t], c)
  {
  }

  lemma LookKeepsInv(cfg: Config, f: Flight, c: nat, now: real, at: real)
    requires FlightInv(cfg, f, c, now) && now <= at
    ensures FlightInv(cfg, f.(b := Look(cfg, f.b, at)), c, at)
  {
    hide SpacedBy, BelowThreshold;
  }

  lemma GateKeepsInv(cfg: Config, f: Flight, c: nat, at: real)
    requires c > 0 && FlightInv(cfg, f, c, at) && f.b.state != Open && |f.gates| + 1 - f.recorded <= c
    ensures FlightInv(cfg, f.(gates := f.gates + [at]), c, at)
  {
    var n := |f.gates|;
    if n - c >= Allowance(cfg) - 1 {
      assert f.recorded - 1 >= n - c;
      assert f.gates[n - c] <= f.gates[f.recorded - 1] <= f.b.lastFailureAt.value;
      assert !BelowThreshold(cfg, f.b.failureCount);
    }
    SpacedByAppend(cfg, f.gates, c, at);
    hide SpacedBy, BelowThreshold, Allowance;
  }

  lemma FailureKeepsInv(cfg: Config, f: Flight, c: nat, now: real, at: real, probe: bool)
    requires FlightInv(cfg, f, c, now) && now <= at && (probe ==> f.recorded < |f.gates|)
    ensures FlightInv(cfg, f.(b := RecordFailure(cfg, f.b, at), recorded := f.recorded + if probe then 1 else 0), c, at)
  {
    hide SpacedBy;
  }

  lemma FlyKeepsInv(cfg: Config, f: Flight, c: nat, now: real, s: LiveStep)
    requires c > 0 && FlightInv(cfg, f, c, now) && now <= s.at
    requires |Fly(cfg, f, s).gates| - Fly(cfg, f, s).recorded <= c
    ensures FlightInv(cfg, Fly(cfg, f, s), c, s.at)
  {
    LookKeepsInv(cfg, f, c, now, s.at);
    FailureKeepsInv(cfg, f, c, now, s.at, false);
    if f.recorded < |f.gates| { FailureKeepsInv(cfg, f, c, now, s.at, true); }
    var looked := f.(b := Look(cfg, f.b, s.at));
    if s.Gate? && looked.b.state != Open { GateKeepsInv(cfg, looked, c, s.at); }
    if s.ProbeFailed? && f.recorded >= |f.gates| { LaterKeepsInv(cfg, f, c, now, s.at); }
    hide FlightInv, Look, RecordFailure;
  }

  lemma LaterKeepsInv(cfg: Config, f: Flight, c: nat, now: real, at: real)
    requires FlightInv(cfg, f, c, now) && now <= at
    ensures FlightInv(cfg, f, c, at)
  {
    hide SpacedBy, BelowThreshold;
  }

  lemma {:induction false} FlownInv(cfg: Config, steps: seq<LiveStep>, c: nat)
    requires c > 0 && TimesRise(steps) && AtMostInFlight(cfg, steps, c)
    ensures steps != [] ==> FlightInv(cfg, Flown(cfg, steps), c, steps[|steps| - 1].at)
    ensures steps == [] ==> Flown(cfg, steps) == Flight(FRESH, [], 0)
  {
    if steps != [] {
      var rest, s := steps[..|steps| - 1], steps[|steps| - 1];
      forall n: nat | n <= |rest| ensures rest[..n] == steps[..n] {}
      assert steps[..|steps|] == steps;
      FlownInv(cfg, rest, c);
      var now := if rest == [] then s.at else rest[|rest| - 1].at;
      assert FlightInv(cfg, Flown(cfg, rest), c, now);
      hide FlightInv;
      FlyKeepsInv(cfg, Flown(cfg, rest), c, now, s);
    }
  }

  lemma {:induction false} SpacedChain(cfg: Config, gates: seq<real>, c: nat, i: nat, q: nat)
    requires SpacedBy(cfg, gates, c) && Allowance(cfg) - 1 <= i && i + q * c < |gates|
    ensures gates[i + q * c] - gates[i] >= q as real * cfg.recoveryTimeout
  {
    if q > 0 {
      assert q * c == (q - 1) * c + c;
      SpacedChain(cfg, gates, c, i, q - 1);
      var k := i + (q - 1) * c;
      assert gates[k + c] - gates[k] >= cfg.recoveryTimeout;
      assert q as real * cfg.recoveryTimeout == (q - 1) as real * cfg.recoveryTimeout + cfg.recoveryTimeout;
    }
  }

  lemma Rounds(k: nat, c: nat) returns (q: nat)
    requires c > 0
    ensures q * c <= k < q * c + c
  {
    q := k / c;
  }

  lemma MoreRounds(c: nat, q: int, f: int)
    requires q <= f
    ensures q * c <= c * f
  {
  }

  /** Main result 6: with at most `c` probes in flight, `n` probes of a dead node let through over a span `T` satisfy
      `n <= threshold + c - 1 + c * floor(T / recovery)`. */
  lemma OverlappingProbesAreBounded(cfg: Config, steps: seq<LiveStep>, c: nat)
    requires c > 0 && TimesRise(steps) && AtMostInFlight(cfg, steps, c) && cfg.recoveryTimeout > 0.0
    ensures var gates := Flown(cfg, steps).gates;
      |gates| > 0 ==>
        var span := gates[|gates| - 1] - gates[0];
        span >= 0.0 && |gates| <= Allowance(cfg) + c - 1 + c * (span / cfg.recoveryTimeout).Floor
  {
    hide Flown, AtMostInFlight, TimesRise;
    FlownInv(cfg, steps, c);
    assert Flown(cfg, steps).gates != [] ==> SpacedBy(cfg, Flown(cfg, steps).gates, c);
    SpacedAreBounded(cfg, Flown(cfg, steps).gates, c);
  }

  lemma SpacedAreBounded(cfg: Config, gates: seq<real>, c: nat)
    requires c > 0 && cfg.recoveryTimeout > 0.0 && (gates != [] ==> SpacedBy(cfg, gates, c))
    ensures |gates| > 0 ==>
      var span := gates[|gates| - 1] - gates[0];
      span >= 0.0 && |gates| <= Allowance(cfg) + c - 1 + c * (span / cfg.recoveryTimeout).Floor
  {
    var n, m := |gates|, Allowance(cfg);
    if n > 0 {
      var span := gates[n - 1] - gates[0];
      var q := 0;
      if n >= m {
        q := Rounds(n - m, c);
        SpacedChain(cfg, gates, c, n - 1 - q * c, q);
        assert gates[0] <= gates[n - 1 - q * c];
      }
      hide SpacedBy;
      DivideBound(q, span, cfg.recoveryTimeout);
      MoreRounds(c, q, (span / cfg.recoveryTimeout).Floor);
    }
  }
}
