/** The rule provider's deterministic ranking of restaurant candidates (rule_provider.py). */
module RankingModel {
  import opened Wrappers
  import opened StableSort
  import opened Texts

  /** A missing, empty or falsy text field is ""; a missing list is []; a distance is None when it is missing or
      cannot be read as a number. */
  datatype Candidate = Candidate(
    id: Option<string>, name: Option<string>, priceTier: string, budgetTier: string,
    cuisines: seq<string>, environment: string, distance: Option<real>)

  datatype Capsule = Capsule(
    budgetTier: string, excluded: seq<string>, preferred: seq<string>, environment: string, limit: Option<real>)

  datatype Reason = HardConstraintViolation | WithinBudget | CuisineMatch | EnvironmentMatch | WithinDistance

  datatype Summary = Rejected | Suitable(cuisine: bool, distance: bool)

  datatype Result = Result(
    id: string, name: string, score: real, passes: bool, reasons: seq<Reason>, summary: Summary)

  const UNKNOWN := "unknown"
  const UNNAMED := "unnamed candidate"

  function LowerChar(c: char): char {
    if 'A' <= c <= 'Z' then c - 'A' + 'a' else c
  }

  function Lower(s: string): string {
    seq(|s|, i requires 0 <= i < |s| => LowerChar(s[i]))
  }

  function TierRank(tier: string): Option<nat> {
    var t := Lower(tier);
    if t == "low" then Some(0) else if t == "medium" then Some(1) else if t == "high" then Some(2) else None
  }

  function TierOf(c: Candidate): string {
    if c.priceTier != "" then c.priceTier else c.budgetTier
  }

  predicate OverBudget(c: Candidate, cap: Capsule) {
    var bt, ct := TierRank(cap.budgetTier), TierRank(TierOf(c));
    bt.Some? && ct.Some? && ct.value > bt.value
  }

  predicate HasExcluded(c: Candidate, cap: Capsule) {
    exists x :: x in c.cuisines && x in cap.excluded
  }

  predicate TooFar(c: Candidate, cap: Capsule) {
    cap.limit.Some? && c.distance.Some? && c.distance.value > cap.limit.value
  }

  function Violations(c: Candidate, cap: Capsule): nat {
    (if OverBudget(c, cap) then 1 else 0) + (if HasExcluded(c, cap) then 1 else 0) + (if TooFar(c, cap) then 1 else 0)
  }

  predicate Passes(c: Candidate, cap: Capsule) {
    !OverBudget(c, cap) && !HasExcluded(c, cap) && !TooFar(c, cap)
  }

  function HardReasons(c: Candidate, cap: Capsule): seq<Reason> {
    if Passes(c, cap) then [WithinBudget] else seq(Violations(c, cap), i => HardConstraintViolation)
  }

  function Elements(s: seq<string>): set<string> { set x | x in s }

  function Matches(c: Candidate, cap: Capsule): nat { |Elements(cap.preferred) * Elements(c.cuisines)| }

  function Max(a: real, b: real): real { if a < b then b else a }

  function Min(a: real, b: real): real { if b < a then b else a }

  function CuisinePoints(c: Candidate, cap: Capsule): real {
    if Matches(c, cap) > 0 then Min(1.0, Matches(c, cap) as real / Max(1.0, |cap.preferred| as real)) else 0.0
  }

  predicate EnvironmentMatches(c: Candidate, cap: Capsule) {
    cap.environment != "" && c.environment != "" && Lower(cap.environment) == Lower(c.environment)
  }

  predicate HasDistance(c: Candidate, cap: Capsule) { cap.limit.Some? && c.distance.Some? }

  function Closeness(distance: real, limit: real): real {
    Max(0.0, Min(1.0, 1.0 - distance / Max(1.0, limit)))
  }

  function DistancePoints(c: Candidate, cap: Capsule): real {
    if HasDistance(c, cap) then Closeness(c.distance.value, cap.limit.value) else 0.0
  }

  function SoftPoints(c: Candidate, cap: Capsule): real {
    CuisinePoints(c, cap) + (if EnvironmentMatches(c, cap) then 1.0 else 0.0) + DistancePoints(c, cap)
  }

  /** Rounding to four places, ties to the even neighbour. */
  function Round4(x: real): real {
    var y := x * 10000.0;
    var f := y.Floor;
    var d := y - f as real;
    (if d < 0.5 || (d == 0.5 && f % 2 == 0) then f else f + 1) as real / 10000.0
  }

  function SoftScore(c: Candidate, cap: Capsule): real { Round4(SoftPoints(c, cap) / 3.0) }

  function SoftReasons(c: Candidate, cap: Capsule): seq<Reason> {
    (if Matches(c, cap) > 0 then [CuisineMatch] else [])
    + (if EnvironmentMatches(c, cap) then [EnvironmentMatch] else [])
    + (if HasDistance(c, cap) then [WithinDistance] else [])
  }

  function IdOf(c: Candidate): string {
    if c.id.Some? then c.id.value else if c.name.Some? then c.name.value else UNKNOWN
  }

  function ResultOf(c: Candidate, cap: Capsule): Result {
    var name := if c.name.Some? then c.name.value else UNNAMED;
    if Passes(c, cap) then
      Result(IdOf(c), name, SoftScore(c, cap), true, HardReasons(c, cap) + SoftReasons(c, cap),
        Suitable(Matches(c, cap) > 0, HasDistance(c, cap)))
    else
      Result(IdOf(c), name, 0.0, false, HardReasons(c, cap), Rejected)
  }

  function Results(cs: seq<Candidate>, cap: Capsule): seq<Result> {
    seq(|cs|, i requires 0 <= i < |cs| => ResultOf(cs[i], cap))
  }

  /** The sort key `(not passes, -score, id)`. */
  predicate RankLe(a: Result, b: Result) {
    if a.passes != b.passes then a.passes
    else if a.score != b.score then a.score > b.score
    else TextLe(a.id, b.id)
  }

  function ByRank(): (Result, Result) -> bool { RankLe }

  function Ranking(cs: seq<Candidate>, cap: Capsule): seq<Result> { Sort(Results(cs, cap), ByRank()) }

  class RuleProvider {
    static method CheckHardConstraints(c: Candidate, cap: Capsule) returns (passes: bool, reasons: seq<Reason>)
      ensures passes <==> Violations(c, cap) == 0
      ensures reasons == HardReasons(c, cap)
    {
      reasons, passes := [], true;
      var tier := if c.priceTier != "" then c.priceTier else c.budgetTier;
      if cap.budgetTier != "" && tier != "" {
        var bt, ct := TierRank(cap.budgetTier), TierRank(tier);
        if bt.Some? && ct.Some? && ct.value > bt.value {
          reasons, passes := reasons + [HardConstraintViolation], false;
        }
      }
      if cap.excluded != [] && c.cuisines != [] {
        var any, i := false, 0;
        while i < |c.cuisines| && !any
          invariant 0 <= i <= |c.cuisines|
          invariant any ==> HasExcluded(c, cap)
          invariant !any ==> forall k: nat :: k < i ==> c.cuisines[k] !in cap.excluded
        {
          any := c.cuisines[i] in cap.excluded;
          i := i + 1;
        }
        if any { reasons, passes := reasons + [HardConstraintViolation], false; }
      }
      if cap.limit.Some? && c.distance.Some? {
        if c.distance.value > cap.limit.value {
          reasons, passes := reasons + [HardConstraintViolation], false;
        }
      }
      if passes && reasons == [] { reasons := reasons + [WithinBudget]; }
    }

    static method ScoreSoftPreferences(c: Candidate, cap: Capsule) returns (score: real, reasons: seq<Reason>)
      ensures score == SoftScore(c, cap) && reasons == SoftReasons(c, cap)
    {
      assert Max(1.0, 3.0) == 3.0;
      hide Round4, Max, Min, Lower, Elements;
      score, reasons := 0.0, [];
      var maxPoints := 0.0;
      maxPoints := maxPoints + 1.0;
      NoMatchesWithoutLists(c, cap);
      if cap.preferred != [] && c.cuisines != [] {
        var matches := |Elements(cap.preferred) * Elements(c.cuisines)|;
        if matches > 0 {
          score := score + Min(1.0, matches as real / Max(1.0, |cap.preferred| as real));
          reasons := reasons + [CuisineMatch];
        }
      }
      assert score == CuisinePoints(c, cap);
      hide CuisinePoints;
      maxPoints := maxPoints + 1.0;
      if cap.environment != "" && c.environment != "" && Lower(cap.environment) == Lower(c.environment) {
        score, reasons := score + 1.0, reasons + [EnvironmentMatch];
      }
      assert score == CuisinePoints(c, cap) + (if EnvironmentMatches(c, cap) then 1.0 else 0.0);
      hide EnvironmentMatches;
      maxPoints := maxPoints + 1.0;
      if cap.limit.Some? && c.distance.Some? {
        var ratio := 1.0 - c.distance.value / Max(1.0, cap.limit.value);
        score, reasons := score + Max(0.0, Min(1.0, ratio)), reasons + [WithinDistance];
      }
      assert score == SoftPoints(c, cap);
      score := Round4(score / Max(1.0, maxPoints));
    }

    static method ScoreCandidates(candidates: seq<Candidate>, cap: Capsule) returns (results: seq<Result>)
      ensures results == Ranking(candidates, cap)
    {
      hide HardReasons, SoftReasons, SoftScore, Matches, OverBudget, HasExcluded, TooFar;
      results := [];
      for i := 0 to |candidates|
        invariant results == Results(candidates[..i], cap)
      {
        var c := candidates[i];
        var passes, reasons := CheckHardConstraints(c, cap);
        var score, summary := 0.0, Rejected;
        if passes {
          var soft;
          score, soft := ScoreSoftPreferences(c, cap);
          reasons := reasons + soft;
          ReasonsTell(c, cap);
          summary := Suitable(CuisineMatch in reasons, WithinDistance in reasons);
        }
        var name := if c.name.Some? then c.name.value else UNNAMED;
        results := results + [Result(IdOf(c), name, score, passes, reasons, summary)];
      }
      assert candidates[..|candidates|] == candidates;
      results := Sort(results, ByRank());
    }
  }

  lemma ReasonsTell(c: Candidate, cap: Capsule)
    ensures Violations(c, cap) == 0 <==> Passes(c, cap)
    ensures var reasons := HardReasons(c, cap) + SoftReasons(c, cap);
      Passes(c, cap) ==>
        (CuisineMatch in reasons <==> Matches(c, cap) > 0) && (WithinDistance in reasons <==> HasDistance(c, cap))
  {
    hide Matches;
  }

  lemma NoMatchesWithoutLists(c: Candidate, cap: Capsule)
    ensures cap.preferred == [] || c.cuisines == [] ==> Matches(c, cap) == 0
  {
    if cap.preferred == [] || c.cuisines == [] {
      assert Elements(cap.preferred) * Elements(c.cuisines) == {};
    }
  }

  // The order

  lemma RankIsPreorder()
    ensures Preorder(ByRank())
  {
    forall x, y ensures ByRank()(x, y) || ByRank()(y, x) {
      TextOrder(x.id, y.id, "");
    }
    forall x, y, z | ByRank()(x, y) && ByRank()(y, z) ensures ByRank()(x, z) {
      TextOrder(x.id, y.id, z.id);
    }
  }

  /** Which of two entries the ranking shows first. */
  predicate ShownBefore(a: Result, b: Result) {
    || (a.passes && !b.passes)
    || (a.passes == b.passes && a.score > b.score)
    || (a.passes == b.passes && a.score == b.score && TextLe(a.id, b.id))
  }

  /** Main result 1: the ranking loses and invents nothing; what passes comes first, then by descending score, then
      by id; and entries equal in all three keep their input order. */
  lemma RankingIsOrdered(cs: seq<Candidate>, cap: Capsule)
    ensures multiset(Ranking(cs, cap)) == multiset(Results(cs, cap)) && |Ranking(cs, cap)| == |cs|
    ensures forall i: nat, j: nat :: i < j < |cs| ==> ShownBefore(Ranking(cs, cap)[i], Ranking(cs, cap)[j])
    ensures SameClasses(Ranking(cs, cap), Results(cs, cap), ByRank())
  {
    RankIsPreorder();
    SortKeepsElements(Results(cs, cap), ByRank());
    SortOrders(Results(cs, cap), ByRank());
    SortIsStable(Results(cs, cap), ByRank());
    var out := Ranking(cs, cap);
    forall i: nat, j: nat | i < j < |cs| ensures ShownBefore(out[i], out[j]) {
      assert ByRank()(out[i], out[j]);
    }
  }

  // Independence of the input order

  lemma ResultsConcat(a: seq<Candidate>, b: seq<Candidate>, cap: Capsule)
    ensures Results(a + b, cap) == Results(a, cap) + Results(b, cap)
  {
    hide ResultOf;
  }

  lemma ResultsMoveHead(l: seq<Candidate>, c: Candidate, r: seq<Candidate>, cap: Capsule)
    ensures multiset(Results(l + [c] + r, cap)) == multiset(Results([c], cap)) + multiset(Results(l + r, cap))
  {
    hide Results;
    ResultsConcat(l + [c], r, cap);
    ResultsConcat(l, [c], cap);
    ResultsConcat(l, r, cap);
  }

  lemma {:induction false} ResultsFollowElements(a: seq<Candidate>, b: seq<Candidate>, cap: Capsule)
    requires multiset(a) == multiset(b)
    ensures multiset(Results(a, cap)) == multiset(Results(b, cap))
    decreases |a|
  {
    hide Results;
    if b == [] {
      assert |multiset(a)| == |a|;
    } else {
      var l, r := SplitAtHead(a, b);
      ResultsFollowElements(l + r, b[1..], cap);
      ResultsMoveHead(l, b[0], r, cap);
      ResultsMoveHead([], b[0], b[1..], cap);
      assert [] + b[1..] == b[1..] && [] + [b[0]] + b[1..] == b;
    }
  }

  ghost predicate DistinctIds(cs: seq<Candidate>) {
    forall i: nat, j: nat :: i < |cs| && j < |cs| && IdOf(cs[i]) == IdOf(cs[j]) ==> i == j
  }

  lemma IdsTellApart(cs: seq<Candidate>, cap: Capsule)
    requires DistinctIds(cs)
    ensures forall x, y :: x in Results(cs, cap) && y in Results(cs, cap) && x.id == y.id ==> x == y
  {
    hide Passes, HardReasons, SoftReasons, SoftScore;
    var rs := Results(cs, cap);
    forall x, y | x in rs && y in rs && x.id == y.id ensures x == y {
      var i: nat :| i < |rs| && rs[i] == x;
      var j: nat :| j < |rs| && rs[j] == y;
      assert IdOf(cs[i]) == x.id && IdOf(cs[j]) == y.id;
    }
  }

  lemma RankTellsApart(cs: seq<Candidate>, cap: Capsule)
    requires DistinctIds(cs)
    ensures Told(Results(cs, cap), ByRank())
  {
    hide Results;
    IdsTellApart(cs, cap);
    forall x, y | x in Results(cs, cap) && y in Results(cs, cap) && ByRank()(x, y) && ByRank()(y, x) ensures x == y {
      TextOrder(x.id, y.id, "");
    }
  }

  /** Every input order of these candidates gives the same list. */
  ghost predicate OrderFree(a: seq<Candidate>, cap: Capsule) {
    forall b :: multiset(b) == multiset(a) ==> Ranking(b, cap) == Ranking(a, cap)
  }

  lemma ToldIsOrderFree(a: seq<Candidate>, b: seq<Candidate>, cap: Capsule)
    requires multiset(b) == multiset(a) && Told(Results(a, cap), ByRank())
    ensures Ranking(b, cap) == Ranking(a, cap)
  {
    hide Results, RankLe;
    RankIsPreorder();
    ResultsFollowElements(a, b, cap);
    SortForgetsOrder(Results(a, cap), Results(b, cap), ByRank());
  }

  /** Swapping two candidates whose entries tie without being the same changes the list. */
  lemma SwapShows(a: seq<Candidate>, cap: Capsule, i: nat, j: nat)
    requires i < j < |a| && ResultOf(a[i], cap) != ResultOf(a[j], cap)
    requires RankLe(ResultOf(a[i], cap), ResultOf(a[j], cap)) && RankLe(ResultOf(a[j], cap), ResultOf(a[i], cap))
    ensures var b := a[i := a[j]][j := a[i]];
      multiset(b) == multiset(a) && Ranking(b, cap) != Ranking(a, cap)
  {
    hide ResultOf, RankLe;
    var b := a[i := a[j]][j := a[i]];
    RankIsPreorder();
    var r, s := Results(a, cap), Results(b, cap);
    assert r[i] == ResultOf(a[i], cap) && s[i] == ResultOf(a[j], cap);
    assert r[..i] == s[..i];
    assert ByRank()(r[i], s[i]) && ByRank()(s[i], r[i]);
    TieShows(r, s, i, ByRank());
  }

  lemma TiedPositions(a: seq<Candidate>, cap: Capsule) returns (i: nat, j: nat)
    requires !Told(Results(a, cap), ByRank())
    ensures i < j < |a| && ResultOf(a[i], cap) != ResultOf(a[j], cap)
    ensures RankLe(ResultOf(a[i], cap), ResultOf(a[j], cap)) && RankLe(ResultOf(a[j], cap), ResultOf(a[i], cap))
  {
    hide ResultOf, RankLe;
    var rs := Results(a, cap);
    var x, y :| x in rs && y in rs && ByRank()(x, y) && ByRank()(y, x) && x != y;
    var p: nat :| p < |rs| && rs[p] == x;
    var q: nat :| q < |rs| && rs[q] == y;
    i, j := if p < q then p else q, if p < q then q else p;
  }

  /** Main result 2: the input order is irrelevant exactly when no two candidates that come to different entries tie
      in passing, score and id. */
  lemma OrderFreeIff(a: seq<Candidate>, cap: Capsule)
    ensures OrderFree(a, cap) <==> Told(Results(a, cap), ByRank())
  {
    hide Results, Ranking, Told, RankLe;
    if Told(Results(a, cap), ByRank()) {
      forall b | multiset(b) == multiset(a) ensures Ranking(b, cap) == Ranking(a, cap) {
        ToldIsOrderFree(a, b, cap);
      }
    } else {
      var i, j := TiedPositions(a, cap);
      SwapShows(a, cap, i, j);
    }
  }

  /** In particular with distinct ids. */
  lemma RankingForgetsInputOrder(a: seq<Candidate>, b: seq<Candidate>, cap: Capsule)
    requires multiset(a) == multiset(b) && DistinctIds(a)
    ensures Ranking(a, cap) == Ranking(b, cap)
  {
    hide *;
    RankTellsApart(a, cap);
    ToldIsOrderFree(a, b, cap);
  }

  /** Two candidates with the same id and score but different names are such a tie, under every capsule. */
  lemma EqualIdsKeepInputOrder(cap: Capsule)
    ensures var a := Candidate(Some("x"), Some("a"), "", "", [], "", None);
            var b := a.(name := Some("b"));
            Ranking([a, b], cap) != Ranking([b, a], cap)
  {
    var a := Candidate(Some("x"), Some("a"), "", "", [], "", None);
    var b := a.(name := Some("b"));
    var r, s := ResultOf(a, cap), ResultOf(b, cap);
    SameButName(cap, a, b);
    hide *;
    ResultsOfPair(a, b, cap);
    ResultsOfPair(b, a, cap);
    SortPair(r, s, ByRank());
    SortPair(s, r, ByRank());
    PairRankings(a, b, cap);
  }

  lemma SameButName(cap: Capsule, a: Candidate, b: Candidate)
    requires a == Candidate(Some("x"), Some("a"), "", "", [], "", None) && b == a.(name := Some("b"))
    ensures var r, s := ResultOf(a, cap), ResultOf(b, cap);
            ByRank()(r, s) && ByRank()(s, r) && r != s
  {
    hide Round4;
    assert Matches(a, cap) == Matches(b, cap);
    TextOrder("x", "x", "x");
  }

  lemma ResultsOfPair(a: Candidate, b: Candidate, cap: Capsule)
    ensures Results([a, b], cap) == [ResultOf(a, cap), ResultOf(b, cap)]
  {
    hide ResultOf;
  }

  lemma PairRankings(a: Candidate, b: Candidate, cap: Capsule)
    ensures Ranking([a, b], cap) == Sort(Results([a, b], cap), ByRank())
    ensures Ranking([b, a], cap) == Sort(Results([b, a], cap), ByRank())
  {
    hide Results, Sort;
  }

  // Scores

  lemma Round4Monotone(x: real, y: real)
    requires x <= y
    ensures Round4(x) <= Round4(y)
  {
    var a, b := x * 10000.0, y * 10000.0;
    assert a.Floor <= b.Floor;
  }

  /** Rounding gives a nearest number of ten-thousandths, and between two equally near ones the even one. */
  lemma Round4Nearest(x: real)
    ensures var n := (Round4(x) * 10000.0).Floor;
      && Round4(x) == n as real / 10000.0
      && n as real - 0.5 <= x * 10000.0 <= n as real + 0.5
      && (x * 10000.0 == n as real - 0.5 || x * 10000.0 == n as real + 0.5 ==> n % 2 == 0)
  {
    var y := x * 10000.0;
    var f := y.Floor;
    var d := y - f as real;
    var n := if d < 0.5 || (d == 0.5 && f % 2 == 0) then f else f + 1;
    assert Round4(x) == n as real / 10000.0;
    assert Round4(x) * 10000.0 == n as real;
  }

  // What the constraints and the points are

  /** A candidate is over budget exactly when its tier is dearer than the budget's, both being known tiers, in whatever
      case they are written. */
  lemma OverBudgetIff(c: Candidate, cap: Capsule)
    ensures var budget := Lower(cap.budgetTier);
      var tier := Lower(if c.priceTier != "" then c.priceTier else c.budgetTier);
      OverBudget(c, cap) <==>
        (budget == "low" && (tier == "medium" || tier == "high")) || (budget == "medium" && tier == "high")
  {
    assert "low"[0] == 'l' && "medium"[0] == 'm' && "high"[0] == 'h';
    hide Lower;
  }

  /** The same letter, in whatever case. */
  predicate SameLetter(a: char, b: char) {
    a == b || ('A' <= a <= 'Z' && b == a - 'A' + 'a') || ('A' <= b <= 'Z' && a == b - 'A' + 'a')
  }

  /** Two texts are equal in lower case exactly when they have the same letters. */
  lemma LowerIgnoresCase(s: string, t: string)
    ensures Lower(s) == Lower(t) <==> |s| == |t| && forall i :: 0 <= i < |s| ==> SameLetter(s[i], t[i])
  {
    if Lower(s) == Lower(t) {
      forall i | 0 <= i < |s| ensures SameLetter(s[i], t[i]) {
        assert Lower(s)[i] == Lower(t)[i];
      }
    }
  }

  /** Main result 7: a candidate passes exactly when it is not dearer than the budget, has no excluded cuisine and is
      not beyond the distance limit; with its points over three as its score, to within half a ten-thousandth. */
  lemma ResultSays(c: Candidate, cap: Capsule)
    ensures var r := ResultOf(c, cap);
      && (c.name.Some? ==> r.name == c.name.value)
      && r.id == (if c.id.Some? then c.id.value else if c.name.Some? then c.name.value else "unknown")
      && (r.passes <==> (
            && !OverBudget(c, cap) && (forall x :: x in c.cuisines ==> x !in cap.excluded)
            && (cap.limit.None? || c.distance.None? || c.distance.value <= cap.limit.value)))
      && (r.passes ==> -0.00005 <= r.score - SoftPoints(c, cap) / 3.0 <= 0.00005)
      && (WithinBudget in r.reasons <==> r.passes) && (HardConstraintViolation in r.reasons <==> !r.passes)
      && (CuisineMatch in r.reasons <==> r.passes && exists x :: x in cap.preferred && x in c.cuisines)
      && (EnvironmentMatch in r.reasons <==> r.passes && EnvironmentMatches(c, cap))
      && (WithinDistance in r.reasons <==> r.passes && cap.limit.Some? && c.distance.Some?)
      && (r.summary == if r.passes then Suitable(CuisineMatch in r.reasons, WithinDistance in r.reasons) else Rejected)
  {
    hide OverBudget, SoftPoints, Round4, Elements, EnvironmentMatches, HardReasons, SoftReasons, Violations;
    WishesMet(cap.preferred, c.cuisines);
    ScoreIsNear(c, cap);
    ReasonsTell(c, cap);
    ReasonsSay(c, cap);
  }

  lemma ScoreIsNear(c: Candidate, cap: Capsule)
    ensures -0.00005 <= SoftScore(c, cap) - SoftPoints(c, cap) / 3.0 <= 0.00005
  {
    Round4Nearest(SoftPoints(c, cap) / 3.0);
    hide SoftPoints, Round4;
  }

  lemma ReasonsSay(c: Candidate, cap: Capsule)
    ensures var all := HardReasons(c, cap) + SoftReasons(c, cap);
      Passes(c, cap) ==>
        (WithinBudget in all && HardConstraintViolation !in all
         && (EnvironmentMatch in all <==> EnvironmentMatches(c, cap)))
    ensures !Passes(c, cap) ==> HardConstraintViolation in HardReasons(c, cap)
    ensures !Passes(c, cap) ==> forall x :: x in HardReasons(c, cap) ==> x == HardConstraintViolation
  {
    hide OverBudget, HasExcluded, TooFar, EnvironmentMatches, Matches;
    if !Passes(c, cap) { assert HardReasons(c, cap)[0] == HardConstraintViolation; }
  }

  /** The cuisine part is the share of the wishes that are met, each counted once. */
  lemma CuisineIsShare(c: Candidate, cap: Capsule)
    requires cap.preferred != []
    ensures CuisinePoints(c, cap) * |cap.preferred| as real ==
      |set x | x in cap.preferred && x in c.cuisines| as real
  {
    ElementsBounded(cap.preferred);
    WishesMet(cap.preferred, c.cuisines);
    assert Elements(cap.preferred) * Elements(c.cuisines) == set x | x in cap.preferred && x in c.cuisines;
    hide Elements;
    var n := |cap.preferred| as real;
    if Matches(c, cap) > 0 { Ratio(Matches(c, cap) as real, n); }
    assert CuisinePoints(c, cap) == Matches(c, cap) as real / n by { assert 0.0 / n == 0.0; }
    RatioTimes(Matches(c, cap) as real, n);
  }

  lemma RatioTimes(m: real, n: real)
    requires n > 0.0
    ensures m / n * n == m
  {
  }

  /** The distance part falls evenly from 1 on the spot to 0 at the limit, or at one kilometre for a shorter limit. */
  lemma ClosenessIsLinear(distance: real, limit: real)
    ensures var far := if limit < 1.0 then 1.0 else limit;
      0.0 <= distance <= far ==> Closeness(distance, limit) * far == far - distance
  {
    var far := if limit < 1.0 then 1.0 else limit;
    var q := distance / far;
    assert q * far == distance;
    if 0.0 <= distance <= far {
      if q < 0.0 { assert q * far < 0.0; }
      if q > 1.0 { assert (q - 1.0) * far > 0.0; }
      assert (1.0 - q) * far == far - q * far;
    }
  }

  /** The environment the group wishes for, in whatever case it is written. */
  ghost predicate InWishedEnvironment(c: Candidate, cap: Capsule) {
    && cap.environment != "" && |cap.environment| == |c.environment|
    && forall i :: 0 <= i < |cap.environment| ==> SameLetter(cap.environment[i], c.environment[i])
  }

  /** The distance part: nothing without a limit and a distance, else full up to the spot, none beyond the limit, and
      falling evenly in between. */
  ghost predicate NearBy(c: Candidate, cap: Capsule, near: real) {
    if cap.limit.None? || c.distance.None? then near == 0.0
    else
      var d, far := c.distance.value, if cap.limit.value < 1.0 then 1.0 else cap.limit.value;
      (d <= 0.0 ==> near == 1.0) && (far <= d ==> near == 0.0) && (0.0 <= d <= far ==> near * far == far - d)
  }

  lemma NearnessIsPart(c: Candidate, cap: Capsule)
    ensures NearBy(c, cap, DistancePoints(c, cap))
  {
    if HasDistance(c, cap) {
      ClosenessIsLinear(c.distance.value, cap.limit.value);
      ClosenessRange(c.distance.value, cap.limit.value);
      hide Closeness;
    }
  }

  lemma WishedIsMatched(c: Candidate, cap: Capsule)
    ensures InWishedEnvironment(c, cap) <==> EnvironmentMatches(c, cap)
  {
    LowerIgnoresCase(cap.environment, c.environment);
    hide Lower, SameLetter;
  }

  lemma NoWishNoPart(c: Candidate, cap: Capsule)
    requires cap.preferred == []
    ensures CuisinePoints(c, cap) == 0.0 && (set x | x in cap.preferred && x in c.cuisines) == {}
  {
    assert Elements(cap.preferred) * Elements(c.cuisines) == {};
  }

  /** The points are the share of the cuisine wishes met, one for the wished environment, and the distance part. */
  lemma PointsAddUp(c: Candidate, cap: Capsule) returns (cuisine: real, environment: real, near: real)
    ensures SoftPoints(c, cap) == cuisine + environment + near
    ensures cap.preferred == [] ==> cuisine == 0.0
    ensures cuisine * |cap.preferred| as real == |set x | x in cap.preferred && x in c.cuisines| as real
    ensures environment == if InWishedEnvironment(c, cap) then 1.0 else 0.0
    ensures NearBy(c, cap, near)
  {
    hide NearBy, DistancePoints, CuisinePoints, EnvironmentMatches, InWishedEnvironment;
    environment := if EnvironmentMatches(c, cap) then 1.0 else 0.0;
    cuisine, near := CuisinePoints(c, cap), DistancePoints(c, cap);
    WishedIsMatched(c, cap);
    NearnessIsPart(c, cap);
    if cap.preferred == [] { NoWishNoPart(c, cap); } else { CuisineIsShare(c, cap); }
  }

  lemma {:induction false} ElementsBounded(s: seq<string>)
    ensures |Elements(s)| <= |s|
    ensures |Elements(s)| == |s| <==> Distinct(s)
  {
    if s != [] {
      var rest := s[1..];
      ElementsBounded(rest);
      assert s == [s[0]] + rest;
      assert Elements(s) == {s[0]} + Elements(rest);
      HeadElsewhere(s);
    }
  }

  lemma HeadElsewhere(s: seq<string>)
    requires s != []
    ensures Distinct(s) <==> s[0] !in s[1..] && Distinct(s[1..])
  {
    var rest := s[1..];
    if Distinct(s) {
      forall i: nat, j: nat | i < j < |rest| ensures rest[i] != rest[j] {
        assert s[i + 1] != s[j + 1];
      }
      forall j: nat | j < |rest| ensures rest[j] != s[0] {
        assert s[j + 1] != s[0];
      }
    }
  }

  /** The cuisine part is full exactly when there are wishes, none twice, and the candidate meets them all. */
  lemma CuisineFullIff(c: Candidate, cap: Capsule)
    ensures 0.0 <= CuisinePoints(c, cap) <= 1.0
    ensures CuisinePoints(c, cap) == 1.0 <==>
      cap.preferred != [] && Distinct(cap.preferred) && forall x :: x in cap.preferred ==> x in c.cuisines
    ensures CuisinePoints(c, cap) == 0.0 <==> forall x :: x in cap.preferred ==> x !in c.cuisines
  {
    ElementsBounded(cap.preferred);
    WishesMet(cap.preferred, c.cuisines);
    hide Elements;
    if Matches(c, cap) > 0 { Ratio(Matches(c, cap) as real, |cap.preferred| as real); }
  }

  lemma Ratio(m: real, n: real)
    requires 0.0 < m <= n
    ensures 0.0 < m / n <= 1.0
    ensures m / n == 1.0 <==> m == n
  {
    var q := m / n;
    assert q * n == m;
  }

  lemma WishesMet(wishes: seq<string>, cuisines: seq<string>)
    ensures var met := Elements(wishes) * Elements(cuisines);
      && |met| <= |Elements(wishes)|
      && (|met| == 0 <==> forall x :: x in wishes ==> x !in cuisines)
      && (|met| == |Elements(wishes)| <==> forall x :: x in wishes ==> x in cuisines)
  {
    var wished, met := Elements(wishes), Elements(wishes) * Elements(cuisines);
    assert wished == met + (wished - met);
    if forall x :: x in wishes ==> x in cuisines {
      assert wished - met == {};
    } else {
      var x :| x in wishes && x !in cuisines;
      assert x in wished - met;
    }
    if forall x :: x in wishes ==> x !in cuisines {
      assert met == {};
    } else {
      var x :| x in wishes && x in cuisines;
      assert x in met;
    }
  }

  lemma ClosenessRange(distance: real, limit: real)
    ensures 0.0 <= Closeness(distance, limit) <= 1.0
    ensures Closeness(distance, limit) == 1.0 <==> distance <= 0.0
    ensures Closeness(distance, limit) == 0.0 <==> distance >= Max(1.0, limit)
  {
    var m := Max(1.0, limit);
    assert (distance / m) * m == distance;
  }

  /** Main result 6: full marks exactly for a candidate on the spot, in the wished environment, that meets every
      cuisine wish of a list without repetitions. */
  lemma FullMarksIff(c: Candidate, cap: Capsule)
    ensures SoftPoints(c, cap) == 3.0 <==>
      && cap.preferred != [] && Distinct(cap.preferred) && (forall x :: x in cap.preferred ==> x in c.cuisines)
      && EnvironmentMatches(c, cap)
      && HasDistance(c, cap) && c.distance.value <= 0.0
  {
    CuisineFullIff(c, cap);
    if HasDistance(c, cap) { ClosenessRange(c.distance.value, cap.limit.value); }
    hide CuisinePoints, Closeness, EnvironmentMatches;
  }

  /** Main result 3: every score is in [0, 1], and a rejected candidate scores 0. */
  lemma ScoresInRange(cs: seq<Candidate>, cap: Capsule, i: nat)
    requires i < |cs|
    ensures |Ranking(cs, cap)| == |cs| && 0.0 <= Ranking(cs, cap)[i].score <= 1.0
    ensures !Ranking(cs, cap)[i].passes ==> Ranking(cs, cap)[i].score == 0.0
  {
    RankingIsOrdered(cs, cap);
    InMultiset(Ranking(cs, cap), Results(cs, cap));
    var r := Ranking(cs, cap)[i];
    assert r in Results(cs, cap);
    var k: nat :| k < |cs| && Results(cs, cap)[k] == r;
    SoftScoreInRange(cs[k], cap);
  }

  lemma SoftScoreInRange(c: Candidate, cap: Capsule)
    ensures 0.0 <= SoftScore(c, cap) <= 1.0
  {
    CuisineFullIff(c, cap);
    if HasDistance(c, cap) { ClosenessRange(c.distance.value, cap.limit.value); }
    hide CuisinePoints, Closeness, EnvironmentMatches;
    var points := SoftPoints(c, cap);
    assert 0.0 <= points <= 3.0;
    Round4Monotone(0.0, points / 3.0);
    Round4Monotone(points / 3.0, 1.0);
    assert Round4(0.0) == 0.0 && Round4(1.0) == 1.0;
  }

  lemma ClosenessAntitone(near: real, far: real, limit: real)
    requires near <= far
    ensures Closeness(near, limit) >= Closeness(far, limit)
  {
    var m := Max(1.0, limit);
    var p, q := near / m, far / m;
    assert p * m == near && q * m == far;
    if p > q { assert (p - q) * m > 0.0; }
  }

  /** `near` is `far` moved closer. */
  ghost predicate MovedCloser(near: Candidate, far: Candidate) {
    && near.distance.Some? && far.distance.Some? && near.distance.value <= far.distance.value
    && near == far.(distance := near.distance)
  }

  lemma CloserScoresNoLess(near: Candidate, far: Candidate, cap: Capsule)
    requires MovedCloser(near, far)
    ensures ResultOf(near, cap).score >= ResultOf(far, cap).score
    ensures ResultOf(far, cap).passes ==> ResultOf(near, cap).passes
    ensures ResultOf(near, cap).id == ResultOf(far, cap).id
  {
    CloserPassesToo(near, far, cap);
    CloserSoftScore(near, far, cap);
    SoftScoreInRange(near, cap);
    hide SoftScore, Passes, Matches, HardReasons, SoftReasons;
  }

  lemma CloserPassesToo(near: Candidate, far: Candidate, cap: Capsule)
    requires MovedCloser(near, far)
    ensures Passes(far, cap) ==> Passes(near, cap)
  {
    hide TierRank;
  }

  lemma CloserSoftScore(near: Candidate, far: Candidate, cap: Capsule)
    requires MovedCloser(near, far)
    ensures SoftScore(near, cap) >= SoftScore(far, cap)
  {
    hide Round4, Closeness, Min, Max, Lower, Elements;
    assert Matches(near, cap) == Matches(far, cap);
    assert EnvironmentMatches(near, cap) == EnvironmentMatches(far, cap);
    if cap.limit.Some? { ClosenessAntitone(near.distance.value, far.distance.value, cap.limit.value); }
    assert SoftPoints(far, cap) <= SoftPoints(near, cap);
    Round4Monotone(SoftPoints(far, cap) / 3.0, SoftPoints(near, cap) / 3.0);
  }

  function Ids(rs: seq<Result>): set<string> { set r | r in rs :: r.id }

  lemma {:induction false} IdsCount(rs: seq<Result>)
    requires forall i: nat, j: nat :: i < j < |rs| ==> rs[i].id != rs[j].id
    ensures |Ids(rs)| == |rs|
  {
    if rs != [] {
      var n := |rs| - 1;
      IdsCount(rs[..n]);
      assert rs == rs[..n] + [rs[n]];
      assert Ids(rs) == Ids(rs[..n]) + {rs[n].id};
      assert rs[n].id !in Ids(rs[..n]);
    }
  }

  lemma SubsetSize<T>(a: set<T>, b: set<T>)
    requires a <= b
    ensures |a| <= |b|
  {
    assert b == a + (b - a);
  }

  lemma RankedIdsDistinct(cs: seq<Candidate>, cap: Capsule)
    requires DistinctIds(cs)
    ensures forall i: nat, j: nat :: i < j < |Ranking(cs, cap)| ==> Ranking(cs, cap)[i].id != Ranking(cs, cap)[j].id
  {
    var rs, out := Results(cs, cap), Ranking(cs, cap);
    RankingIsOrdered(cs, cap);
    InMultiset(rs, out);
    assert Distinct(rs) by {
      forall i: nat, j: nat | i < j < |rs| ensures rs[i] != rs[j] {
        assert rs[i].id == IdOf(cs[i]) && rs[j].id == IdOf(cs[j]);
      }
    }
    PermutedDistinct(rs, out);
    IdsTellApart(cs, cap);
    hide *;
    forall i: nat, j: nat | i < j < |out| ensures out[i].id != out[j].id {
      assert out[i] in rs && out[j] in rs && out[i] != out[j] by { DistinctAt(out, i, j); }
    }
  }

  lemma RankedIdsDiffer(cs: seq<Candidate>, cap: Capsule, i: nat, j: nat)
    requires DistinctIds(cs) && i < j < |Ranking(cs, cap)|
    ensures Ranking(cs, cap)[i].id != Ranking(cs, cap)[j].id
  {
    hide *;
    RankedIdsDistinct(cs, cap);
  }

  lemma DistinctAt<T>(s: seq<T>, i: nat, j: nat)
    requires Distinct(s) && i < j < |s|
    ensures s[i] != s[j]
  {
  }

  /** Whatever was shown before the moved candidate's new entry was shown before its old one. */
  lemma StillBefore(t: Result, near: Candidate, far: Candidate, cap: Capsule)
    requires MovedCloser(near, far) && t.id != IdOf(far) && RankLe(t, ResultOf(near, cap))
    ensures !RankLe(ResultOf(far, cap), t)
  {
    CloserScoresNoLess(near, far, cap);
    var r, r' := ResultOf(far, cap), ResultOf(near, cap);
    assert r.id == IdOf(far);
    hide ResultOf, MovedCloser;
    RejectedScoresZero(far, cap);
    TextOrder(t.id, r.id, "");
  }

  lemma RejectedScoresZero(c: Candidate, cap: Capsule)
    ensures !ResultOf(c, cap).passes ==> ResultOf(c, cap).score == 0.0
  {
    hide SoftScore, Passes;
  }

  lemma PlaceOf(cs: seq<Candidate>, cap: Capsule, k: nat, p: nat)
    requires DistinctIds(cs) && k < |cs| && p < |Ranking(cs, cap)| && Ranking(cs, cap)[p].id == IdOf(cs[k])
    ensures Ranking(cs, cap)[p] == ResultOf(cs[k], cap)
  {
    RankingIsOrdered(cs, cap);
    InMultiset(Ranking(cs, cap), Results(cs, cap));
    IdsTellApart(cs, cap);
    assert Results(cs, cap)[k].id == IdOf(cs[k]);
    assert Ranking(cs, cap)[p] in Results(cs, cap);
  }

  lemma RankedAt(cs: seq<Candidate>, cap: Capsule, i: nat, j: nat)
    requires i < j < |Ranking(cs, cap)|
    ensures RankLe(Ranking(cs, cap)[i], Ranking(cs, cap)[j])
  {
    RankIsPreorder();
    SortOrders(Results(cs, cap), ByRank());
    assert ByRank()(Ranking(cs, cap)[i], Ranking(cs, cap)[j]);
  }

  lemma MovedKeepsIds(cs: seq<Candidate>, k: nat, near: Candidate)
    requires DistinctIds(cs) && k < |cs| && MovedCloser(near, cs[k])
    ensures DistinctIds(cs[k := near]) && IdOf(near) == IdOf(cs[k])
  {
  }

  /** An entry shown before the moved candidate comes from another candidate and beats its old entry. */
  lemma BeatsOldEntry(cs: seq<Candidate>, cap: Capsule, k: nat, near: Candidate, q: nat, m: nat)
    requires DistinctIds(cs) && k < |cs| && MovedCloser(near, cs[k])
    requires var cs' := cs[k := near];
      m < q < |Ranking(cs', cap)| && Ranking(cs', cap)[q].id == IdOf(near)
    ensures var t := Ranking(cs[k := near], cap)[m];
      t in Ranking(cs, cap) && t.id != IdOf(cs[k]) && !RankLe(ResultOf(cs[k], cap), t)
  {
    hide *;
    var cs' := cs[k := near];
    var t := Ranking(cs', cap)[m];
    MovedKeepsIds(cs, k, near);
    PlaceOf(cs', cap, k, q);
    RankedIdsDiffer(cs', cap, m, q);
    RankedAt(cs', cap, m, q);
    InIds(Ranking(cs', cap), m);
    OtherEntryStays(cs, cap, k, near, t);
    StillBefore(t, near, cs[k], cap);
  }

  lemma NotLater(cs: seq<Candidate>, cap: Capsule, p: nat, u: nat)
    requires p < |Ranking(cs, cap)| && u < |Ranking(cs, cap)| && u != p
    requires !RankLe(Ranking(cs, cap)[p], Ranking(cs, cap)[u])
    ensures u < p
  {
    hide *;
    if u > p { RankedAt(cs, cap, p, u); }
  }

  lemma ShownBeforeBefore(cs: seq<Candidate>, cap: Capsule, k: nat, near: Candidate, p: nat, q: nat, m: nat)
    requires DistinctIds(cs) && k < |cs| && MovedCloser(near, cs[k])
    requires p < |Ranking(cs, cap)| && Ranking(cs, cap)[p].id == IdOf(cs[k])
    requires var cs' := cs[k := near];
      m < q < |Ranking(cs', cap)| && Ranking(cs', cap)[q].id == IdOf(near)
    ensures Ranking(cs[k := near], cap)[m].id in Ids(Ranking(cs, cap)[..p])
  {
    hide *;
    var out, t := Ranking(cs, cap), Ranking(cs[k := near], cap)[m];
    BeatsOldEntry(cs, cap, k, near, q, m);
    PlaceOf(cs, cap, k, p);
    var u: nat :| u < |out| && out[u] == t;
    NotLater(cs, cap, p, u);
    InIds(out[..p], u);
  }

  lemma InIds(rs: seq<Result>, u: nat)
    ensures u < |rs| ==> rs[u].id in Ids(rs)
  {
  }

  lemma OtherEntryStays(cs: seq<Candidate>, cap: Capsule, k: nat, near: Candidate, t: Result)
    requires k < |cs| && t in Ranking(cs[k := near], cap) && t.id != IdOf(near)
    ensures t in Ranking(cs, cap)
  {
    hide Passes, SoftScore, HardReasons, SoftReasons, Sort;
    var cs' := cs[k := near];
    RankingIsOrdered(cs, cap);
    RankingIsOrdered(cs', cap);
    InMultiset(Ranking(cs, cap), Results(cs, cap));
    InMultiset(Ranking(cs', cap), Results(cs', cap));
    var i: nat :| i < |cs'| && Results(cs', cap)[i] == t;
    assert i != k;
    assert Results(cs, cap)[i] == t;
  }

  /** Main result 4: moving one candidate closer never moves its entry down the list. */
  lemma MovingCloserNeverLowers(cs: seq<Candidate>, cap: Capsule, k: nat, near: Candidate, p: nat, q: nat)
    requires DistinctIds(cs) && k < |cs| && MovedCloser(near, cs[k])
    requires p < |Ranking(cs, cap)| && Ranking(cs, cap)[p].id == IdOf(cs[k])
    requires var cs' := cs[k := near];
      q < |Ranking(cs', cap)| && Ranking(cs', cap)[q].id == IdOf(near)
    ensures q <= p
  {
    hide ResultOf, Results, Ranking;
    var cs' := cs[k := near];
    var out, out' := Ranking(cs, cap), Ranking(cs', cap);
    MovedKeepsIds(cs, k, near);
    RankedIdsDistinct(cs, cap);
    RankedIdsDistinct(cs', cap);
    IdsCount(out[..p]);
    IdsCount(out'[..q]);
    forall x | x in Ids(out'[..q]) ensures x in Ids(out[..p]) {
      var m: nat :| m < q && out'[m].id == x;
      ShownBeforeBefore(cs, cap, k, near, p, q, m);
    }
    SubsetSize(Ids(out'[..q]), Ids(out[..p]));
  }

  /** Main result 5: of the private limits a rejected candidate's public entry shows only how many it breaks. */
  lemma RejectedShowsOnlyTheCount(c: Candidate, cap: Capsule, other: Capsule)
    requires !Passes(c, cap) && !Passes(c, other)
    ensures ResultOf(c, cap) == ResultOf(c, other) <==> Violations(c, cap) == Violations(c, other)
  {
    hide OverBudget, HasExcluded, TooFar;
    assert |HardReasons(c, cap)| == Violations(c, cap) && |HardReasons(c, other)| == Violations(c, other);
  }
}
