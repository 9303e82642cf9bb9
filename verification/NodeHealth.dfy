/** The breaker object and the checker that keeps one per node, updating their fields. */
module NodeHealthModel {
  import opened Wrappers
  import opened BreakerModel

  const DEFAULTS := Config(3, 60.0)

  class CircuitBreaker {
    const cfg: Config
    var failureCount: nat
    var state: CircuitState
    var lastFailureAt: Option<real>

    function Value(): Breaker
      reads this
    {
      Breaker(failureCount, state, lastFailureAt)
    }

    constructor (cfg: Config)
      ensures this.cfg == cfg && Value() == FRESH
    {
      this.cfg, failureCount, state, lastFailureAt := cfg, 0, Closed, None;
    }

    method State(now: real) returns (s: CircuitState)
      modifies this
      ensures Value() == Look(cfg, old(Value()), now) && s == state
    {
      if state == Open && lastFailureAt.Some? && now - lastFailureAt.value >= cfg.recoveryTimeout {
        state := HalfOpen;
      }
      s := state;
    }

    method AllowRequest(now: real) returns (allowed: bool)
      modifies this
      ensures Value() == Look(cfg, old(Value()), now) && allowed == (state != Open)
    {
      var s := State(now);
      allowed := s == Closed || s == HalfOpen;
    }

    method RecordSuccess()
      modifies this
      ensures Value() == FRESH
    {
      failureCount, state, lastFailureAt := 0, Closed, None;
    }

    method RecordFailure(now: real)
      modifies this
      ensures Value() == BreakerModel.RecordFailure(cfg, old(Value()), now)
    {
      failureCount := failureCount + 1;
      lastFailureAt := Some(now);
      if state == HalfOpen || failureCount >= cfg.failureThreshold { state := Open; }
    }
  }

  class NodeHealthChecker {
    var breakers: map<string, CircuitBreaker>

    /** Every node has a breaker of its own. */
    ghost predicate Valid()
      reads this, breakers.Values
    {
      && (forall n :: n in breakers ==> breakers[n].cfg == DEFAULTS)
      && (forall n, m :: n in breakers && m in breakers && n != m ==> breakers[n] != breakers[m])
    }

    ghost function Values(): map<string, Breaker>
      reads this, breakers.Values
    {
      map n | n in breakers :: breakers[n].Value()
    }

    ghost function ValueOf(node: string): Breaker
      reads this, breakers.Values
    {
      if node in breakers then breakers[node].Value() else FRESH
    }

    constructor ()
      ensures Valid() && Values() == map[]
    {
      breakers := map[];
    }

    /** The node's breaker, made on first use. */
    method BreakerOf(node: string) returns (b: CircuitBreaker)
      requires Valid()
      modifies this
      ensures Valid() && node in breakers && b == breakers[node]
      ensures breakers.Values <= old(breakers.Values) + {b}
      ensures b in old(breakers.Values) || fresh(b)
      ensures b.Value() == old(ValueOf(node)) && Values() == old(Values())[node := b.Value()]
    {
      if node !in breakers {
        b := new CircuitBreaker(DEFAULTS);
        breakers := breakers[node := b];
      }
      b := breakers[node];
    }

    /** When one node's breaker changed, the table of values changed for that node only. */
    twostate lemma OneChanged(node: string)
      requires old(Valid()) && breakers == old(breakers) && node in breakers
      requires forall b :: b in breakers.Values && b != breakers[node] ==> unchanged(b)
      ensures Valid() && Values() == old(Values())[node := breakers[node].Value()]
    {
      forall n | n in breakers && n != node ensures breakers[n].Value() == old(breakers[n].Value()) {
        assert breakers[n] in breakers.Values;
      }
    }

    method CheckNode(node: string, answersWell: bool, c: Clock) returns (r: Report)
      requires Valid()
      modifies this, breakers.Values
      ensures Valid()
      ensures var (b, report) := Check(DEFAULTS, old(ValueOf(node)), answersWell, c);
        Values() == old(Values())[node := b] && r == report
    {
      hide Check, Values;
      var breaker := BreakerOf(node);
      label Made:
      r := Probe(breaker, answersWell, c);
      OneChanged@Made(node);
    }

    /** Skips the probe while the circuit is open; otherwise records how it went. */
    static method Probe(breaker: CircuitBreaker, answersWell: bool, c: Clock) returns (r: Report)
      modifies breaker
      ensures (breaker.Value(), r) == Check(breaker.cfg, old(breaker.Value()), answersWell, c)
    {
      var allowed := breaker.AllowRequest(c.gate);
      if !allowed {
        var circuit := breaker.State(c.report);
        return Report(Offline, false, circuit);
      }
      if answersWell { breaker.RecordSuccess(); } else { breaker.RecordFailure(c.record); }
      var circuit := breaker.State(c.report);
      var status;
      if answersWell && (circuit == Closed || circuit == HalfOpen) { status := Online; }
      else if circuit == Open { status := Offline; }
      else { status := Degraded; }
      r := Report(status, true, circuit);
    }

    method RecordCall(node: string, succeeded: bool, now: real)
      requires Valid()
      modifies this, breakers.Values
      ensures Valid()
      ensures Values() == old(Values())[node :=
        Apply(DEFAULTS, old(ValueOf(node)), if succeeded then Succeeded(now) else Failed(now))]
    {
      hide Apply, Values;
      var breaker := BreakerOf(node);
      label Made:
      Record(breaker, succeeded, now);
      OneChanged@Made(node);
    }

    static method Record(breaker: CircuitBreaker, succeeded: bool, now: real)
      modifies breaker
      ensures breaker.Value() ==
        Apply(breaker.cfg, old(breaker.Value()), if succeeded then Succeeded(now) else Failed(now))
    {
      if succeeded { breaker.RecordSuccess(); } else { breaker.RecordFailure(now); }
    }
  }
}
