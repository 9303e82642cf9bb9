/** Grouping the turns of a dinner debate for display (dormDinnerChat.ts). */
module DebateModel {
  import opened Wrappers
  import opened StableSort

  /** `round` is None when the turn carries no usable number. */
  datatype Turn = Turn(phase: string, round: Option<int>, speaker: string, content: string)

  datatype RoundGroup = RoundGroup(round: int, turns: seq<Turn>, hostSummary: Option<Turn>)

  datatype Groups = Groups(
    opening: Option<Turn>, proposals: seq<Turn>, rounds: seq<RoundGroup>, coordinatorSummary: Option<Turn>)

  const OPENING := "opening"
  const PROPOSAL := "proposal"
  const HOST_SUMMARY := "host_summary"
  const COORDINATOR_SUMMARY := "coordinator_summary"

  /** `round || 1`: a missing round and round 0 both count as round 1. */
  function RoundOf(t: Turn): int {
    if t.round.None? || t.round.value == 0 then 1 else t.round.value
  }

  /** Every phase the switch does not name, a missing one included. */
  predicate IsDebate(t: Turn) {
    t.phase != OPENING && t.phase != PROPOSAL && t.phase != HOST_SUMMARY && t.phase != COORDINATOR_SUMMARY
  }

  function InPhase(phase: string): Turn -> bool { (t: Turn) => t.phase == phase }

  function DebateIn(rounds: set<int>): Turn -> bool { (t: Turn) => IsDebate(t) && RoundOf(t) in rounds }

  function HostOf(round: int): Turn -> bool { (t: Turn) => t.phase == HOST_SUMMARY && RoundOf(t) == round }

  function AnyDebate(): Turn -> bool { IsDebate }

  function Filter(s: seq<Turn>, f: Turn -> bool): seq<Turn> {
    if s == [] then []
    else Filter(s[..|s| - 1], f) + (if f(s[|s| - 1]) then [s[|s| - 1]] else [])
  }

  function LastOf(s: seq<Turn>, f: Turn -> bool): (t: Option<Turn>)
    ensures t.Some? <==> Filter(s, f) != []
    ensures t.Some? ==> t.value == Filter(s, f)[|Filter(s, f)| - 1]
  {
    if s == [] then None
    else if f(s[|s| - 1]) then Some(s[|s| - 1])
    else LastOf(s[..|s| - 1], f)
  }

  predicate NamesRound(t: Turn) { IsDebate(t) || t.phase == HOST_SUMMARY }

  function RoundNumbers(turns: seq<Turn>): set<int> { set t | t in turns && NamesRound(t) :: RoundOf(t) }

  function GroupOf(turns: seq<Turn>, round: int): (g: RoundGroup)
    ensures g.round == round
  {
    RoundGroup(round, Filter(turns, DebateIn({round})), LastOf(turns, HostOf(round)))
  }

  ghost predicate RisingRounds(rounds: seq<RoundGroup>) {
    forall i: nat, j: nat :: i < j < |rounds| ==> rounds[i].round < rounds[j].round
  }

  function NumbersOf(rounds: seq<RoundGroup>): set<int> { set g | g in rounds :: g.round }

  ghost predicate GroupsOf(turns: seq<Turn>, rounds: seq<RoundGroup>) {
    forall g :: g in rounds ==> g == GroupOf(turns, g.round)
  }

  ghost predicate SlotsHold(
    turns: seq<Turn>, opening: Option<Turn>, proposals: seq<Turn>, coordinatorSummary: Option<Turn>)
  {
    && opening == LastOf(turns, InPhase(OPENING))
    && proposals == Filter(turns, InPhase(PROPOSAL))
    && coordinatorSummary == LastOf(turns, InPhase(COORDINATOR_SUMMARY))
  }

  /** What a grouping of `turns` is. */
  ghost predicate IsGrouping(turns: seq<Turn>, g: Groups) {
    && SlotsHold(turns, g.opening, g.proposals, g.coordinatorSummary)
    && RisingRounds(g.rounds)
    && NumbersOf(g.rounds) == RoundNumbers(turns)
    && GroupsOf(turns, g.rounds)
  }

  predicate RoundLe(a: RoundGroup, b: RoundGroup) { a.round <= b.round }

  function ByRound(): (RoundGroup, RoundGroup) -> bool { RoundLe }

  /** What the loop's round map and round list hold after the turns `seen`. */
  ghost predicate Tracks(seen: seq<Turn>, rounds: seq<RoundGroup>, roundMap: map<int, nat>) {
    && roundMap.Keys == RoundNumbers(seen)
    && (forall r :: r in roundMap ==> roundMap[r] < |rounds| && rounds[roundMap[r]] == GroupOf(seen, r))
    && (forall j: nat :: j < |rounds| ==> rounds[j].round in roundMap && roundMap[rounds[j].round] == j)
  }

  /** What finding or making the group of a round leaves behind. */
  ghost predicate RoundFound(
    rounds: seq<RoundGroup>, roundMap: map<int, nat>, r: int,
    rounds': seq<RoundGroup>, roundMap': map<int, nat>, at: nat)
  {
    && at < |rounds'|
    && (r in roundMap ==> rounds' == rounds && roundMap' == roundMap && at == roundMap[r])
    && (r !in roundMap ==>
          rounds' == rounds + [RoundGroup(r, [], None)] && roundMap' == roundMap[r := |rounds|] && at == |rounds|)
  }

  /** In the source the map entry and the list entry of a round are one object; here the map holds the list position. */
  method GetRound(rounds: seq<RoundGroup>, roundMap: map<int, nat>, turn: Turn)
    returns (rounds': seq<RoundGroup>, roundMap': map<int, nat>, at: nat)
    requires forall r :: r in roundMap ==> roundMap[r] < |rounds|
    ensures RoundFound(rounds, roundMap, RoundOf(turn), rounds', roundMap', at)
  {
    var r := if turn.round.None? || turn.round.value == 0 then 1 else turn.round.value;
    if r in roundMap { return rounds, roundMap, roundMap[r]; }
    return rounds + [RoundGroup(r, [], None)], roundMap[r := |rounds|], |rounds|;
  }

  /** The switch's last two cases: a host summary or a debate turn goes to its round's group. */
  method PlaceInRound(rounds: seq<RoundGroup>, roundMap: map<int, nat>, turn: Turn, ghost seen: seq<Turn>)
    returns (rounds': seq<RoundGroup>, roundMap': map<int, nat>)
    requires Tracks(seen, rounds, roundMap) && NamesRound(turn)
    ensures Tracks(seen + [turn], rounds', roundMap')
  {
    hide Tracks, RoundFound, RoundOf, NamesRound;
    TracksBounds(seen, rounds, roundMap);
    var at;
    rounds', roundMap', at := GetRound(rounds, roundMap, turn);
    TracksPlaced(seen, turn, rounds, roundMap, rounds', roundMap', at);
    if turn.phase == HOST_SUMMARY {
      rounds' := rounds'[at := rounds'[at].(hostSummary := Some(turn))];
    } else {
      rounds' := rounds'[at := rounds'[at].(turns := rounds'[at].turns + [turn])];
    }
  }

  method GroupDebateTurns(turns: seq<Turn>) returns (g: Groups)
    ensures IsGrouping(turns, g)
  {
    g := Groups(None, [], [], None);
    var roundMap: map<int, nat> := map[];
    assert Tracks([], [], roundMap) && SlotsHold([], None, [], None);
    hide Tracks, SlotsHold, RoundFound, RoundOf, NamesRound, RisingRounds, NumbersOf, GroupsOf, RoundNumbers;
    for i := 0 to |turns|
      invariant SlotsHold(turns[..i], g.opening, g.proposals, g.coordinatorSummary)
      invariant Tracks(turns[..i], g.rounds, roundMap)
    {
      var turn := turns[i];
      ghost var seen := turns[..i];
      assert turns[..i + 1] == seen + [turn];
      SlotsOneMore(seen, turn, g.opening, g.proposals, g.coordinatorSummary);
      NamesRoundUnless(turn);
      if turn.phase == OPENING {
        TracksSame(seen, turn, g.rounds, roundMap);
        g := g.(opening := Some(turn));
      } else if turn.phase == PROPOSAL {
        TracksSame(seen, turn, g.rounds, roundMap);
        g := g.(proposals := g.proposals + [turn]);
      } else if turn.phase == COORDINATOR_SUMMARY {
        TracksSame(seen, turn, g.rounds, roundMap);
        g := g.(coordinatorSummary := Some(turn));
      } else {
        var rounds;
        rounds, roundMap := PlaceInRound(g.rounds, roundMap, turn, seen);
        g := g.(rounds := rounds);
      }
    }
    assert turns[..|turns|] == turns;
    SortedRounds(turns, g.rounds, roundMap);
    g := g.(rounds := Sort(g.rounds, ByRound()));
  }

  lemma NamesRoundUnless(t: Turn)
    ensures NamesRound(t) <==> t.phase != OPENING && t.phase != PROPOSAL && t.phase != COORDINATOR_SUMMARY
  {
  }

  lemma FilterOneMore(s: seq<Turn>, t: Turn, f: Turn -> bool)
    ensures Filter(s + [t], f) == Filter(s, f) + (if f(t) then [t] else [])
    ensures LastOf(s + [t], f) == if f(t) then Some(t) else LastOf(s, f)
  {
    assert (s + [t])[..|s|] == s;
  }

  lemma GroupOneMore(seen: seq<Turn>, t: Turn, r: int)
    ensures var g := GroupOf(seen, r);
      GroupOf(seen + [t], r) ==
        if RoundOf(t) == r && IsDebate(t) then g.(turns := g.turns + [t])
        else if RoundOf(t) == r && t.phase == HOST_SUMMARY then g.(hostSummary := Some(t))
        else g
  {
    FilterOneMore(seen, t, DebateIn({r}));
    FilterOneMore(seen, t, HostOf(r));
  }

  lemma {:induction false} NewRoundIsEmpty(seen: seq<Turn>, r: int)
    requires r !in RoundNumbers(seen)
    ensures GroupOf(seen, r) == RoundGroup(r, [], None)
  {
    if seen != [] {
      var n := |seen| - 1;
      assert seen == seen[..n] + [seen[n]];
      assert seen[n] in seen && forall t :: t in seen[..n] ==> t in seen;
      NewRoundIsEmpty(seen[..n], r);
      GroupOneMore(seen[..n], seen[n], r);
    }
  }

  /** The list and map after a turn that names a round. */
  function Updated(g: RoundGroup, t: Turn): RoundGroup {
    if t.phase == HOST_SUMMARY then g.(hostSummary := Some(t)) else g.(turns := g.turns + [t])
  }

  lemma SlotsOneMore(
    seen: seq<Turn>, t: Turn, opening: Option<Turn>, proposals: seq<Turn>, coordinatorSummary: Option<Turn>)
    requires SlotsHold(seen, opening, proposals, coordinatorSummary)
    ensures SlotsHold(seen + [t],
      if t.phase == OPENING then Some(t) else opening,
      if t.phase == PROPOSAL then proposals + [t] else proposals,
      if t.phase == COORDINATOR_SUMMARY then Some(t) else coordinatorSummary)
  {
    hide Filter, LastOf;
    FilterOneMore(seen, t, InPhase(OPENING));
    FilterOneMore(seen, t, InPhase(COORDINATOR_SUMMARY));
    FilterOneMore(seen, t, InPhase(PROPOSAL));
  }

  /** How one more turn changes the group of a round. */
  function GroupAfter(g: RoundGroup, t: Turn, r: int): RoundGroup {
    if NamesRound(t) && RoundOf(t) == r then Updated(g, t) else g
  }

  lemma GroupsOneMore(seen: seq<Turn>, t: Turn)
    ensures forall r :: GroupOf(seen + [t], r) == GroupAfter(GroupOf(seen, r), t, r)
  {
    hide GroupOf, RoundOf;
    forall r ensures GroupOf(seen + [t], r) == GroupAfter(GroupOf(seen, r), t, r) {
      GroupOneMore(seen, t, r);
    }
  }

  lemma TracksSame(seen: seq<Turn>, t: Turn, rounds: seq<RoundGroup>, roundMap: map<int, nat>)
    requires Tracks(seen, rounds, roundMap) && !NamesRound(t)
    ensures Tracks(seen + [t], rounds, roundMap)
  {
    hide GroupOf, RoundNumbers, NamesRound;
    GroupsOneMore(seen, t);
    RoundNumbersOneMore(seen, t);
  }

  lemma TracksExisting(seen: seq<Turn>, t: Turn, rounds: seq<RoundGroup>, roundMap: map<int, nat>)
    requires Tracks(seen, rounds, roundMap) && NamesRound(t) && RoundOf(t) in roundMap
    ensures var at := roundMap[RoundOf(t)];
      at < |rounds| && Tracks(seen + [t], rounds[at := Updated(rounds[at], t)], roundMap)
  {
    hide GroupOf, RoundNumbers, NamesRound, RoundOf;
    GroupsOneMore(seen, t);
    RoundNumbersOneMore(seen, t);
  }

  lemma TracksCreated(seen: seq<Turn>, t: Turn, rounds: seq<RoundGroup>, roundMap: map<int, nat>)
    requires Tracks(seen, rounds, roundMap) && NamesRound(t) && RoundOf(t) !in roundMap
    ensures var created := Updated(RoundGroup(RoundOf(t), [], None), t);
      Tracks(seen + [t], rounds + [created], roundMap[RoundOf(t) := |rounds|])
  {
    hide GroupOf, RoundNumbers, NamesRound, RoundOf;
    NewRoundIsEmpty(seen, RoundOf(t));
    GroupsOneMore(seen, t);
    RoundNumbersOneMore(seen, t);
  }

  lemma TracksPlaced(
    seen: seq<Turn>, t: Turn, rounds: seq<RoundGroup>, roundMap: map<int, nat>,
    rounds': seq<RoundGroup>, roundMap': map<int, nat>, at: nat)
    requires Tracks(seen, rounds, roundMap) && NamesRound(t)
    requires RoundFound(rounds, roundMap, RoundOf(t), rounds', roundMap', at)
    ensures at < |rounds'| && Tracks(seen + [t], rounds'[at := Updated(rounds'[at], t)], roundMap')
  {
    hide Tracks, RoundOf, NamesRound, Updated;
    if RoundOf(t) in roundMap {
      TracksExisting(seen, t, rounds, roundMap);
    } else {
      TracksCreated(seen, t, rounds, roundMap);
      var empty := RoundGroup(RoundOf(t), [], None);
      assert (rounds + [empty])[|rounds| := Updated(empty, t)] == rounds + [Updated(empty, t)];
    }
  }

  lemma TracksBounds(seen: seq<Turn>, rounds: seq<RoundGroup>, roundMap: map<int, nat>)
    requires Tracks(seen, rounds, roundMap)
    ensures forall r :: r in roundMap ==> roundMap[r] < |rounds|
  {
  }

  lemma RoundNumbersOneMore(seen: seq<Turn>, t: Turn)
    ensures RoundNumbers(seen + [t]) == RoundNumbers(seen) + (if NamesRound(t) then {RoundOf(t)} else {})
  {
    hide NamesRound, RoundOf;
    assert t in seen + [t];
    forall u | u in seen ensures u in seen + [t] {}
  }

  lemma TracksDistinct(turns: seq<Turn>, rounds: seq<RoundGroup>, roundMap: map<int, nat>)
    requires Tracks(turns, rounds, roundMap)
    ensures NumbersOf(rounds) == RoundNumbers(turns) && GroupsOf(turns, rounds)
    ensures forall i: nat, j: nat :: i < |rounds| && j < |rounds| && rounds[i].round == rounds[j].round ==> i == j
  {
    hide GroupOf, RoundNumbers;
    forall r | r in roundMap ensures r in NumbersOf(rounds) {
      assert rounds[roundMap[r]] in rounds && rounds[roundMap[r]].round == GroupOf(turns, r).round == r;
    }
  }

  lemma ByRoundIsPreorder()
    ensures Preorder(ByRound())
  {
  }

  lemma SortedRounds(turns: seq<Turn>, rounds: seq<RoundGroup>, roundMap: map<int, nat>)
    requires Tracks(turns, rounds, roundMap)
    ensures var out := Sort(rounds, ByRound());
      RisingRounds(out) && NumbersOf(out) == RoundNumbers(turns) && GroupsOf(turns, out)
  {
    hide Tracks, GroupOf, RoundNumbers, Sort, Preorder;
    TracksDistinct(turns, rounds, roundMap);
    ByRoundIsPreorder();
    SortOrders(rounds, ByRound());
    SortKeepsElements(rounds, ByRound());
    var out := Sort(rounds, ByRound());
    InMultiset(rounds, out);
    PermutedDistinct(rounds, out);
    forall i: nat, j: nat | i < j < |out| ensures out[i].round < out[j].round {
      assert ByRound()(out[i], out[j]) && out[i] != out[j] && out[i] in rounds && out[j] in rounds;
    }
  }

  // What a grouping promises

  lemma {:induction false} RisingIsUnique(turns: seq<Turn>, a: seq<RoundGroup>, b: seq<RoundGroup>)
    requires RisingRounds(a) && RisingRounds(b) && GroupsOf(turns, a) && GroupsOf(turns, b)
    requires NumbersOf(a) == NumbersOf(b)
    ensures a == b
  {
    hide GroupOf, RisingRounds, NumbersOf;
    InNumbers(a);
    InNumbers(b);
    if a != [] && b != [] {
      LeastFirst(a);
      LeastFirst(b);
      assert a[0] in a && b[0] in b;
      assert a == [a[0]] + a[1..] && b == [b[0]] + b[1..];
      TailNumbers(a);
      TailNumbers(b);
      RisingIsUnique(turns, a[1..], b[1..]);
    }
  }

  lemma LeastFirst(rounds: seq<RoundGroup>)
    requires rounds != [] && RisingRounds(rounds)
    ensures rounds[0].round in NumbersOf(rounds) && forall n :: n in NumbersOf(rounds) ==> rounds[0].round <= n
  {
    InNumbers(rounds);
    forall n | n in NumbersOf(rounds) ensures rounds[0].round <= n {
      var i: nat :| i < |rounds| && rounds[i].round == n;
      if i > 0 { assert rounds[0].round < rounds[i].round; }
    }
  }

  lemma InNumbers(rounds: seq<RoundGroup>)
    ensures forall i: nat :: i < |rounds| ==> rounds[i].round in NumbersOf(rounds)
    ensures rounds == [] <==> NumbersOf(rounds) == {}
  {
    forall i: nat | i < |rounds| ensures rounds[i].round in NumbersOf(rounds) {
      assert rounds[i] in rounds;
    }
    if rounds != [] { assert rounds[0].round in NumbersOf(rounds); }
  }

  lemma TailNumbers(rounds: seq<RoundGroup>)
    requires rounds != [] && RisingRounds(rounds)
    ensures NumbersOf(rounds[1..]) == NumbersOf(rounds) - {rounds[0].round}
    ensures RisingRounds(rounds[1..])
    ensures NumbersOf(rounds) == {rounds[0].round} + NumbersOf(rounds[1..])
  {
    var first, rest := rounds[0].round, rounds[1..];
    forall g | g in rest ensures g.round > first {
      var i: nat :| i < |rest| && rest[i] == g;
      assert rounds[i + 1] == g;
    }
    forall i: nat, j: nat | i < j < |rest| ensures rest[i].round < rest[j].round {
      assert rounds[i + 1].round < rounds[j + 1].round;
    }
    hide RisingRounds;
    NumbersCons(rounds[0], rest);
    assert rounds == [rounds[0]] + rest;
  }

  lemma NumbersCons(g: RoundGroup, rest: seq<RoundGroup>)
    ensures NumbersOf([g] + rest) == {g.round} + NumbersOf(rest)
  {
    assert g in [g] + rest && forall x :: x in rest ==> x in [g] + rest;
  }

  /** Main result 1: a list of turns has one grouping, so the method's contract determines its result. */
  lemma GroupingIsUnique(turns: seq<Turn>, g: Groups, h: Groups)
    requires IsGrouping(turns, g) && IsGrouping(turns, h)
    ensures g == h
  {
    hide GroupOf, RisingRounds, NumbersOf, GroupsOf;
    RisingIsUnique(turns, g.rounds, h.rounds);
  }

  /** The positions `at` in `s`, in order, of the turns that satisfy `f`. */
  ghost predicate PositionsOf(s: seq<Turn>, f: Turn -> bool, at: seq<nat>) {
    && (forall i: nat, j: nat :: i < j < |at| ==> at[i] < at[j])
    && (forall i: nat :: i < |s| ==> (f(s[i]) <==> i in at))
    && (forall i :: i in at ==> i < |s|)
  }

  ghost predicate Picks(s: seq<Turn>, f: Turn -> bool, picked: seq<Turn>, at: seq<nat>) {
    PositionsOf(s, f, at) && PickedAt(s, picked, at)
  }

  lemma PicksOneMore(s: seq<Turn>, f: Turn -> bool, picked: seq<Turn>, at: seq<nat>)
    requires s != [] && Picks(s[..|s| - 1], f, picked, at)
    ensures f(s[|s| - 1]) ==> Picks(s, f, picked + [s[|s| - 1]], at + [|s| - 1])
    ensures !f(s[|s| - 1]) ==> Picks(s, f, picked, at)
  {
    hide PositionsOf, PickedAt;
    PositionsOneMore(s, f, at);
    PickedOneMore(s, f, at, picked);
  }

  lemma FilterLast(s: seq<Turn>, f: Turn -> bool)
    requires s != []
    ensures f(s[|s| - 1]) ==> Filter(s, f) == Filter(s[..|s| - 1], f) + [s[|s| - 1]]
    ensures !f(s[|s| - 1]) ==> Filter(s, f) == Filter(s[..|s| - 1], f)
  {
  }

  /** Main result 2: a filtered list holds every turn that satisfies the filter, once, in input order. */
  lemma {:induction false} FilterKeepsOrder(s: seq<Turn>, f: Turn -> bool) returns (at: seq<nat>)
    ensures Picks(s, f, Filter(s, f), at)
  {
    at := [];
    if s != [] {
      hide Picks, Filter;
      at := FilterKeepsOrder(s[..|s| - 1], f);
      PicksOneMore(s, f, Filter(s[..|s| - 1], f), at);
      FilterLast(s, f);
      if f(s[|s| - 1]) { at := at + [|s| - 1]; }
    }
  }

  /** `picked` is `s` read at the positions `at`. */
  ghost predicate PickedAt(s: seq<Turn>, picked: seq<Turn>, at: seq<nat>) {
    |picked| == |at| && forall k: nat :: k < |at| ==> at[k] < |s| && picked[k] == s[at[k]]
  }

  /** The positions in the list without its last turn are positions in the list. */
  lemma PositionsInit(s: seq<Turn>, f: Turn -> bool, at: seq<nat>)
    requires s != [] && PositionsOf(s[..|s| - 1], f, at)
    ensures forall i :: i in at ==> i < |s| - 1
    ensures forall i: nat :: i < |s| - 1 ==> (f(s[i]) <==> i in at)
    ensures forall i: nat, j: nat :: i < j < |at| ==> at[i] < at[j]
  {
    var init := s[..|s| - 1];
    forall i: nat | i < |init| ensures f(s[i]) <==> i in at { assert init[i] == s[i]; }
  }

  lemma PositionsOneMore(s: seq<Turn>, f: Turn -> bool, at: seq<nat>)
    requires s != [] && PositionsOf(s[..|s| - 1], f, at)
    ensures PositionsOf(s, f, if f(s[|s| - 1]) then at + [|s| - 1] else at)
  {
    PositionsInit(s, f, at);
    var n := |s| - 1;
    if f(s[n]) {
      var at' := at + [n];
      assert forall i :: i in at' <==> i in at || i == n;
      forall i: nat, j: nat | i < j < |at'| ensures at'[i] < at'[j] {
        assert at[i] in at;
      }
    }
  }

  lemma PickedOneMore(s: seq<Turn>, f: Turn -> bool, at: seq<nat>, picked: seq<Turn>)
    requires s != [] && PickedAt(s[..|s| - 1], picked, at)
    ensures var n := |s| - 1;
      PickedAt(s, if f(s[n]) then picked + [s[n]] else picked, if f(s[n]) then at + [n] else at)
  {
  }

  lemma {:induction false} FilterUnion(s: seq<Turn>, h: Turn -> bool, f: Turn -> bool, g: Turn -> bool)
    requires forall t :: h(t) <==> f(t) || g(t)
    requires forall t :: !(f(t) && g(t))
    ensures multiset(Filter(s, h)) == multiset(Filter(s, f)) + multiset(Filter(s, g))
    ensures |Filter(s, h)| == |Filter(s, f)| + |Filter(s, g)|
  {
    if s != [] { FilterUnion(s[..|s| - 1], h, f, g); }
  }

  lemma {:induction false} FilterSame(s: seq<Turn>, f: Turn -> bool, g: Turn -> bool)
    requires forall t :: t in s ==> f(t) == g(t)
    ensures Filter(s, f) == Filter(s, g)
  {
    if s != [] {
      assert s[|s| - 1] in s;
      FilterSame(s[..|s| - 1], f, g);
    }
  }

  /** The debate turns of all the rounds, one round after the other. */
  function DebateShown(rounds: seq<RoundGroup>): seq<Turn> {
    if rounds == [] then [] else rounds[0].turns + DebateShown(rounds[1..])
  }

  function Slot(t: Option<Turn>): seq<Turn> { if t.Some? then [t.value] else [] }

  /** The host summaries of all the rounds. */
  function HostsShown(rounds: seq<RoundGroup>): seq<Turn> {
    if rounds == [] then [] else Slot(rounds[0].hostSummary) + HostsShown(rounds[1..])
  }

  function HostIn(rounds: set<int>): Turn -> bool { (t: Turn) => t.phase == HOST_SUMMARY && RoundOf(t) in rounds }

  ghost predicate OneHostEach(turns: seq<Turn>, rounds: seq<RoundGroup>) {
    forall g :: g in rounds ==> |Filter(turns, HostOf(g.round))| <= 1
  }

  lemma {:induction false} RoundsHoldDebate(turns: seq<Turn>, rounds: seq<RoundGroup>)
    requires RisingRounds(rounds) && GroupsOf(turns, rounds)
    ensures multiset(DebateShown(rounds)) == multiset(Filter(turns, DebateIn(NumbersOf(rounds))))
  {
    hide Filter, RoundOf, IsDebate;
    if rounds == [] {
      NoneMatch(turns, DebateIn({}));
      assert NumbersOf([]) == {};
    } else {
      assert rounds[0] in rounds;
      forall g | g in rounds[1..] ensures g in rounds {}
      TailNumbers(rounds);
      RoundsHoldDebate(turns, rounds[1..]);
      FilterUnion(turns, DebateIn(NumbersOf(rounds)), DebateIn({rounds[0].round}), DebateIn(NumbersOf(rounds[1..])));
    }
  }

  lemma {:induction false} NoneMatch(s: seq<Turn>, f: Turn -> bool)
    requires forall t :: !f(t)
    ensures Filter(s, f) == []
  {
    if s != [] { NoneMatch(s[..|s| - 1], f); }
  }

  lemma {:induction false} RoundsHoldHosts(turns: seq<Turn>, rounds: seq<RoundGroup>)
    requires RisingRounds(rounds) && GroupsOf(turns, rounds)
    ensures multiset(HostsShown(rounds)) <= multiset(Filter(turns, HostIn(NumbersOf(rounds))))
    ensures |HostsShown(rounds)| <= |Filter(turns, HostIn(NumbersOf(rounds)))|
    ensures |HostsShown(rounds)| == |Filter(turns, HostIn(NumbersOf(rounds)))| <==> OneHostEach(turns, rounds)
  {
    hide Filter, RoundOf;
    if rounds == [] {
      NoneMatch(turns, HostIn({}));
      assert NumbersOf([]) == {};
    } else {
      assert rounds[0] in rounds;
      forall g | g in rounds[1..] ensures g in rounds {}
      TailNumbers(rounds);
      RoundsHoldHosts(turns, rounds[1..]);
      FilterUnion(turns, HostIn(NumbersOf(rounds)), HostOf(rounds[0].round), HostIn(NumbersOf(rounds[1..])));
      OneHostSplit(turns, rounds);
      SlotOf(turns, HostOf(rounds[0].round));
    }
  }

  /** A slot shows one of the turns that go into it, and all of them if there is at most one. */
  lemma SlotOf(turns: seq<Turn>, f: Turn -> bool)
    ensures multiset(Slot(LastOf(turns, f))) <= multiset(Filter(turns, f))
    ensures |Slot(LastOf(turns, f))| <= |Filter(turns, f)|
    ensures |Slot(LastOf(turns, f))| == |Filter(turns, f)| <==> |Filter(turns, f)| <= 1
  {
    hide Filter;
    var last := LastOf(turns, f);
    if last.Some? {
      assert Filter(turns, f)[|Filter(turns, f)| - 1] in Filter(turns, f);
      assert multiset([last.value]) == multiset{last.value};
    }
  }

  lemma OneHostSplit(turns: seq<Turn>, rounds: seq<RoundGroup>)
    requires rounds != []
    ensures OneHostEach(turns, rounds) <==>
      |Filter(turns, HostOf(rounds[0].round))| <= 1 && OneHostEach(turns, rounds[1..])
  {
    hide Filter;
    assert rounds == [rounds[0]] + rounds[1..];
    forall g | g in rounds[1..] ensures g in rounds {}
    assert rounds[0] in rounds;
  }

  function ListedTurns(): Turn -> bool { (t: Turn) => t.phase == PROPOSAL || IsDebate(t) }

  lemma AllRoundsNamed(turns: seq<Turn>, g: Groups)
    requires IsGrouping(turns, g)
    ensures Filter(turns, DebateIn(NumbersOf(g.rounds))) == Filter(turns, AnyDebate())
    ensures Filter(turns, HostIn(NumbersOf(g.rounds))) == Filter(turns, InPhase(HOST_SUMMARY))
  {
    hide Filter, LastOf, GroupsOf, RisingRounds;
    FilterSame(turns, DebateIn(NumbersOf(g.rounds)), AnyDebate());
    FilterSame(turns, HostIn(NumbersOf(g.rounds)), InPhase(HOST_SUMMARY));
  }

  /** Main result 3: the proposals and the rounds hold every proposal and debate turn exactly once. */
  lemma ListedTurnsKept(turns: seq<Turn>, g: Groups)
    requires IsGrouping(turns, g)
    ensures multiset(g.proposals) + multiset(DebateShown(g.rounds)) == multiset(Filter(turns, ListedTurns()))
  {
    AllRoundsNamed(turns, g);
    RoundsHoldDebate(turns, g.rounds);
    hide Filter, LastOf;
    FilterUnion(turns, ListedTurns(), InPhase(PROPOSAL), AnyDebate());
  }

  /** Everything a grouping shows. */
  function Shown(g: Groups): seq<Turn> {
    Slot(g.opening) + Slot(g.coordinatorSummary) + g.proposals + DebateShown(g.rounds) + HostsShown(g.rounds)
  }

  predicate IsSlot(t: Turn) { t.phase == OPENING || t.phase == COORDINATOR_SUMMARY }

  predicate IsSlotOrHost(t: Turn) { IsSlot(t) || t.phase == HOST_SUMMARY }

  function AnyTurn(): Turn -> bool { (t: Turn) => true }

  lemma {:induction false} FilterAll(s: seq<Turn>)
    ensures Filter(s, AnyTurn()) == s
  {
    if s != [] { FilterAll(s[..|s| - 1]); }
  }

  lemma PhasesDiffer()
    ensures OPENING != PROPOSAL && OPENING != HOST_SUMMARY && OPENING != COORDINATOR_SUMMARY
    ensures PROPOSAL != HOST_SUMMARY && PROPOSAL != COORDINATOR_SUMMARY && HOST_SUMMARY != COORDINATOR_SUMMARY
  {
    assert OPENING[0] == 'o' && PROPOSAL[0] == 'p' && HOST_SUMMARY[0] == 'h' && COORDINATOR_SUMMARY[0] == 'c';
  }

  lemma PhasesPartition(turns: seq<Turn>)
    ensures multiset(turns) == multiset(Filter(turns, ListedTurns())) + multiset(Filter(turns, InPhase(OPENING)))
      + multiset(Filter(turns, InPhase(COORDINATOR_SUMMARY))) + multiset(Filter(turns, InPhase(HOST_SUMMARY)))
    ensures |turns| == |Filter(turns, ListedTurns())| + |Filter(turns, InPhase(OPENING))|
      + |Filter(turns, InPhase(COORDINATOR_SUMMARY))| + |Filter(turns, InPhase(HOST_SUMMARY))|
  {
    hide Filter;
    PhasesDiffer();
    FilterAll(turns);
    FilterUnion(turns, AnyTurn(), ListedTurns(), IsSlotOrHost);
    FilterUnion(turns, IsSlotOrHost, IsSlot, InPhase(HOST_SUMMARY));
    FilterUnion(turns, IsSlot, InPhase(OPENING), InPhase(COORDINATOR_SUMMARY));
  }

  /** No slot is filled twice: at most one opening, one coordinator summary and one host summary of each round. */
  ghost predicate NoSlotTwice(turns: seq<Turn>) {
    && |Filter(turns, InPhase(OPENING))| <= 1
    && |Filter(turns, InPhase(COORDINATOR_SUMMARY))| <= 1
    && forall r :: |Filter(turns, HostOf(r))| <= 1
  }

  lemma HostsByRound(turns: seq<Turn>, g: Groups)
    requires IsGrouping(turns, g)
    ensures OneHostEach(turns, g.rounds) <==> forall r :: |Filter(turns, HostOf(r))| <= 1
  {
    hide Filter, LastOf;
    forall r | r !in RoundNumbers(turns) ensures Filter(turns, HostOf(r)) == [] {
      NewRoundIsEmpty(turns, r);
    }
    forall r | r in NumbersOf(g.rounds) ensures exists x :: x in g.rounds && x.round == r {}
  }

  lemma ShownIsWithin(turns: seq<Turn>, g: Groups)
    requires IsGrouping(turns, g)
    ensures multiset(Shown(g)) <= multiset(turns)
    ensures |Shown(g)| == |turns| <==> NoSlotTwice(turns)
  {
    AllRoundsNamed(turns, g);
    RoundsHoldHosts(turns, g.rounds);
    HostsByRound(turns, g);
    ListedTurnsKept(turns, g);
    PhasesPartition(turns);
    SlotOf(turns, InPhase(OPENING));
    SlotOf(turns, InPhase(COORDINATOR_SUMMARY));
    hide Filter, LastOf, DebateShown, HostsShown, OneHostEach, GroupsOf, RisingRounds, NumbersOf, RoundNumbers;
    assert multiset(Shown(g)) == multiset(Slot(g.opening)) + multiset(Slot(g.coordinatorSummary))
      + multiset(g.proposals) + multiset(DebateShown(g.rounds)) + multiset(HostsShown(g.rounds));
    assert |multiset(g.proposals) + multiset(DebateShown(g.rounds))| == |g.proposals| + |DebateShown(g.rounds)|;
    assert |multiset(Filter(turns, ListedTurns()))| == |Filter(turns, ListedTurns())|;
  }

  lemma SameSize<T>(a: multiset<T>, b: multiset<T>)
    requires a <= b && |a| == |b|
    ensures a == b
  {
    assert b == a + (b - a);
  }

  /** Main result 4: a grouping shows nothing that was not there, and it shows all the turns exactly when no slot is
      filled twice. */
  lemma NothingLostIff(turns: seq<Turn>, g: Groups)
    requires IsGrouping(turns, g)
    ensures multiset(Shown(g)) <= multiset(turns)
    ensures multiset(Shown(g)) == multiset(turns) <==> NoSlotTwice(turns)
  {
    hide *;
    ShownIsWithin(turns, g);
    assert |multiset(Shown(g))| == |Shown(g)| && |multiset(turns)| == |turns|;
    if NoSlotTwice(turns) { SameSize(multiset(Shown(g)), multiset(turns)); }
  }

  /** The round a turn is shown in: its own number, or 1 when it has none or 0. */
  predicate ShownIn(round: int, t: Turn) {
    if t.round.None? || t.round == Some(0) then round == 1 else t.round == Some(round)
  }

  /** Every debate turn is shown in its round, and only there; a host summary makes its round even without turns. */
  lemma EveryRoundIsShown(turns: seq<Turn>, g: Groups, t: Turn)
    requires IsGrouping(turns, g) && t in turns && NamesRound(t)
    ensures exists r :: r in g.rounds && ShownIn(r.round, t)
    ensures IsDebate(t) ==> forall r :: r in g.rounds ==> (t in r.turns <==> ShownIn(r.round, t))
  {
    assert RoundOf(t) in NumbersOf(g.rounds);
    hide Filter, LastOf;
    forall r | r in g.rounds && IsDebate(t) ensures t in r.turns <==> ShownIn(r.round, t) {
      FilterHas(turns, DebateIn({r.round}), t);
    }
  }

  lemma {:induction false} FilterHas(s: seq<Turn>, f: Turn -> bool, t: Turn)
    ensures t in Filter(s, f) <==> t in s && f(t)
  {
    if s != [] { FilterHas(s[..|s| - 1], f, t); }
  }

  /** An input that loses a turn: of two openings only the second is shown. */
  lemma SecondOpeningReplaces(first: Turn, second: Turn, g: Groups)
    requires first.phase == OPENING && second.phase == OPENING && IsGrouping([first, second], g)
    ensures g.opening == Some(second) && multiset(Shown(g)) != multiset([first, second])
  {
    NothingLostIff([first, second], g);
    BothOpenings(first, second);
    hide Filter, LastOf, Shown;
  }

  lemma BothOpenings(first: Turn, second: Turn)
    requires first.phase == OPENING && second.phase == OPENING
    ensures Filter([first, second], InPhase(OPENING)) == [first, second]
    ensures LastOf([first, second], InPhase(OPENING)) == Some(second)
  {
    hide LastOf;
    FilterOneMore([first], second, InPhase(OPENING));
    FilterOneMore([], first, InPhase(OPENING));
    assert [first] + [second] == [first, second] && [] + [first] == [first];
  }
}
