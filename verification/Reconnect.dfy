/** The client's reconnect budget: how often and how soon it tries again. */
module ReconnectModel {
  datatype WsState =
    | Idle | Connecting | Open | Reconnecting | Refreshing | Paused | Closed | AuthFailed | Forbidden

  const MAX_CONSECUTIVE_FAILURES := 10

  /** Seconds before the next try, by failure count; past the end the last entry repeats. */
  const BACKOFF_SCHEDULE: seq<real> := [0.0, 1.0, 2.0, 4.0, 8.0, 16.0, 30.0]

  function Nominal(failCount: nat): real {
    BACKOFF_SCHEDULE[if failCount < 7 then failCount else 6]
  }

  /** `random` is the draw that spreads the delay by a fifth either way. */
  function Backoff(failCount: nat, random: real): real {
    var delay := Nominal(failCount) + Nominal(failCount) * 0.2 * (random * 2.0 - 1.0);
    if delay < 0.0 then 0.0 else delay
  }

  /** `delays` records every reconnect the client has scheduled. */
  datatype Link = Link(state: WsState, failCount: nat, delays: seq<real>)

  function Fail(l: Link, random: real): Link {
    var failCount := l.failCount + 1;
    if failCount >= MAX_CONSECUTIVE_FAILURES then Link(Paused, failCount, l.delays)
    else Link(Reconnecting, failCount, l.delays + [Backoff(failCount, random)])
  }

  function Close(l: Link, manual: bool, code: nat, random: real): Link {
    if manual || code == 1000 then l.(state := Closed)
    else if code == 1008 || code == 4403 then l.(state := Forbidden)
    else if code == 4406 then l.(state := Closed)
    else Fail(l, random)
  }

  /** A try that does not start while a socket is open or being opened. */
  function Try(l: Link): Link {
    if l.state == Open || l.state == Connecting then l else l.(state := Connecting)
  }

  /** What the browser and the user do to a link: a socket opens, cannot be made or closes; a timer or the page asks
      to connect; the user retries, hangs up or has everything forgotten. */
  datatype LinkEvent =
    | SocketOpened
    | ConnectFailed(random: real)
    | SocketClosed(manual: bool, code: nat, random: real)
    | Tried
    | Retried
    | HungUp
    | WasReset

  function Step(l: Link, e: LinkEvent): Link {
    match e
    case SocketOpened => l.(state := Open, failCount := 0)
    case ConnectFailed(r) => Fail(l, r)
    case SocketClosed(manual, code, r) => Close(l, manual, code, r)
    case Tried => Try(l)
    case Retried => Try(l.(failCount := 0))
    case HungUp => l.(state := Closed)
    case WasReset => l.(failCount := 0)
  }

  const START := Link(Idle, 0, [])

  function After(events: seq<LinkEvent>): Link {
    if events == [] then START else Step(After(events[..|events| - 1]), events[|events| - 1])
  }

  /** Failures that count towards the budget: a failed try, or a close that allows another one. */
  predicate Counts(e: LinkEvent) {
    e.ConnectFailed? || (e.SocketClosed? && !e.manual && e.code !in {1000, 1008, 4403, 4406})
  }

  /** What ends a streak of failures. */
  predicate Forgives(e: LinkEvent) { e.SocketOpened? || e.Retried? || e.WasReset? }

  /** How many failures counted since the last event that ends a streak. */
  function Streak(events: seq<LinkEvent>): nat {
    if events == [] then 0
    else
      var rest, e := Streak(events[..|events| - 1]), events[|events| - 1];
      if Forgives(e) then 0 else if Counts(e) then rest + 1 else rest
  }

  lemma {:induction false} FailCountIsStreak(events: seq<LinkEvent>)
    ensures After(events).failCount == Streak(events)
  {
    if events != [] { FailCountIsStreak(events[..|events| - 1]); }
  }

  /** Main result 1: an event schedules a reconnect exactly when it counts and the streak it makes is below ten;
      the tenth in a row pauses the client. */
  lemma ScheduledIffWithinBudget(events: seq<LinkEvent>, e: LinkEvent)
    ensures var l, l' := After(events), After(events + [e]);
      && (Counts(e) && Streak(events) + 1 < MAX_CONSECUTIVE_FAILURES <==> |l'.delays| == |l.delays| + 1)
      && (Counts(e) && Streak(events) + 1 >= MAX_CONSECUTIVE_FAILURES ==> l'.state == Paused)
      && (l'.delays == l.delays || l'.delays == l.delays + [Backoff(Streak(events) + 1, e.random)])
  {
    assert (events + [e])[..|events|] == events;
    FailCountIsStreak(events);
  }

  function Sum(s: seq<real>): real {
    if s == [] then 0.0 else Sum(s[..|s| - 1]) + s[|s| - 1]
  }

  /** The delays a streak of `n` failures schedules, without jitter. */
  function NominalTotal(n: nat): real {
    if n == 0 then 0.0
    else NominalTotal(n - 1) + if n < MAX_CONSECUTIVE_FAILURES then Nominal(n) else 0.0
  }

  lemma BackoffSpread(failCount: nat, random: real)
    requires 0.0 <= random < 1.0
    ensures 0.8 * Nominal(failCount) <= Backoff(failCount, random) <= 1.2 * Nominal(failCount)
  {
    var n := Nominal(failCount);
    assert n >= 0.0;
    assert n * 0.2 * (random * 2.0 - 1.0) == n * 0.4 * random - n * 0.2;
    assert 0.0 <= n * 0.4 * random <= n * 0.4;
  }

  /** Main result 2: a streak of `n` failures schedules `min(n, 9)` reconnects, within a fifth of their nominal
      total. */
  lemma {:induction false} StreakBudget(failures: seq<LinkEvent>)
    requires forall i :: 0 <= i < |failures| ==> Counts(failures[i]) && 0.0 <= failures[i].random < 1.0
    ensures var l, n := After(failures), |failures|;
      && l.failCount == n
      && |l.delays| == (if n < MAX_CONSECUTIVE_FAILURES then n else MAX_CONSECUTIVE_FAILURES - 1)
      && (l.state == Paused <==> n >= MAX_CONSECUTIVE_FAILURES)
      && 0.8 * NominalTotal(n) <= Sum(l.delays) <= 1.2 * NominalTotal(n)
  {
    if failures != [] {
      var rest, e := failures[..|failures| - 1], failures[|failures| - 1];
      StreakBudget(rest);
      var l, l' := After(rest), After(failures);
      if |failures| < MAX_CONSECUTIVE_FAILURES {
        BackoffSpread(|failures|, e.random);
        assert l'.delays[..|l.delays|] == l.delays;
      }
    }
  }

  /** A client that never gets through gives up after about two and a half minutes of waiting. */
  lemma WholeBudget(failures: seq<LinkEvent>)
    requires |failures| >= MAX_CONSECUTIVE_FAILURES
    requires forall i :: 0 <= i < |failures| ==> Counts(failures[i]) && 0.0 <= failures[i].random < 1.0
    ensures After(failures).state == Paused
    ensures 120.8 <= Sum(After(failures).delays) <= 181.2
  {
    StreakBudget(failures);
    BudgetIs151(|failures|);
  }

  lemma {:induction false} BudgetIs151(n: nat)
    requires n >= 9
    ensures NominalTotal(n) == 151.0
  {
    if n == 9 {
      assert NominalTotal(3) == 7.0;
      assert NominalTotal(6) == 61.0;
    } else {
      BudgetIs151(n - 1);
    }
  }

  /** Where a closed socket leaves the link: a normal, manual or version close closes it, a policy close forbids it, and
      anything else has it reconnect or pause. */
  lemma CloseCodes(l: Link, manual: bool, code: nat, random: real)
    ensures var l' := Step(l, SocketClosed(manual, code, random));
      && (l'.state == Forbidden <==> !manual && code in {1008, 4403})
      && (l'.state == Closed <==> manual || code in {1000, 4406})
      && (l'.state == Paused <==> !manual && code !in {1000, 1008, 4403, 4406} && l.failCount >= 9)
      && (l'.state == Reconnecting <==> !manual && code !in {1000, 1008, 4403, 4406} && l.failCount < 9)
  {
  }

  /** The nominal delays: one second after the first failure, doubling up to sixteen, then thirty. */
  lemma DelaysDouble(n: nat)
    ensures Nominal(1) == 1.0
    ensures 1 <= n <= 4 ==> Nominal(n + 1) == 2.0 * Nominal(n)
    ensures n >= 6 ==> Nominal(n) == 30.0
  {
  }

  /** What the other events leave: an opened socket is open without failures; a try or retry is connecting unless a
      socket is there, and only the retry forgets the failures; hanging up closes. None of them schedules anything. */
  lemma OtherEvents(l: Link)
    ensures Step(l, SocketOpened) == Link(Open, 0, l.delays)
    ensures Step(l, HungUp) == Link(Closed, l.failCount, l.delays)
    ensures Step(l, WasReset) == Link(l.state, 0, l.delays)
    ensures var l' := Step(l, Tried);
      l'.failCount == l.failCount && l'.delays == l.delays
      && l'.state == if l.state in {Open, Connecting} then l.state else Connecting
    ensures Step(l, Retried) == Step(l, Tried).(failCount := 0)
  {
  }
}
