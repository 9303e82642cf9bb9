/**
 The group conversation of one organization and the replication of the organization's members into
 its participants.

 Membership rows change in the organizations module; the two sync functions are called when somebody
 calls them. A state holds both sides, and a membership change and a sync call are separate steps, so
 a run may delay, repeat, drop or invent calls.
 */
module OrgGroupModel {
  import opened Wrappers

  type UserId = nat

  datatype OrgRole = OrgOwner | OrgAdmin | OrgMember
  datatype Role = Owner | Admin | Member
  datatype Status = Active | Left | Removed
  datatype Participant = Participant(user: UserId, role: Role, status: Status)

  /** `members`: active memberships. `group`: the participant rows, once the conversation exists. */
  datatype State = State(members: map<UserId, OrgRole>, group: Option<seq<Participant>>)

  /** `found` and `permitted` are what the lookups and permission checks before a change say. */
  datatype Op =
    | SetMember(user: UserId, role: OrgRole)
    | DropMember(user: UserId)
    | CallJoined(user: UserId, role: OrgRole)
    | CallLeft(user: UserId)
    | Open(found: bool, actor: UserId, admin: bool, listing: seq<UserId>)
    | AddParticipant(user: UserId, given: Role, permitted: bool, found: bool)
    | RemoveParticipant(user: UserId, permitted: bool)

  datatype Answer = Done | Existing | NotFound | Denied | AlreadyThere

  const EMPTY := State(map[], None)

  function MapRole(r: OrgRole): Role {
    match r
    case OrgOwner => Owner
    case OrgAdmin => Admin
    case OrgMember => Member
  }

  /** The user's first row, whatever its status. */
  function RowOf(rows: seq<Participant>, user: UserId): (r: Option<nat>)
    ensures r.Some? ==> r.value < |rows| && rows[r.value].user == user
    ensures r.None? ==> forall i :: 0 <= i < |rows| ==> rows[i].user != user
  {
    if rows == [] then None
    else if rows[0].user == user then Some(0)
    else
      match RowOf(rows[1..], user)
      case None => None
      case Some(i) => Some(i + 1)
  }

  function ActiveRowOf(rows: seq<Participant>, user: UserId): (r: Option<nat>)
    ensures r.Some? ==> r.value < |rows| && rows[r.value].user == user && rows[r.value].status == Active
    ensures r.None? ==> forall i :: 0 <= i < |rows| ==> !(rows[i].user == user && rows[i].status == Active)
  {
    if rows == [] then None
    else if rows[0].user == user && rows[0].status == Active then Some(0)
    else
      match ActiveRowOf(rows[1..], user)
      case None => None
      case Some(i) => Some(i + 1)
  }

  /** Reactivates the user's row or adds one. */
  function Enter(rows: seq<Participant>, user: UserId, role: Role): seq<Participant> {
    match RowOf(rows, user)
    case Some(i) => rows[i := Participant(user, role, Active)]
    case None => rows + [Participant(user, role, Active)]
  }

  function Exit(rows: seq<Participant>, user: UserId, status: Status): seq<Participant> {
    match ActiveRowOf(rows, user)
    case Some(i) => rows[i := rows[i].(status := status)]
    case None => rows
  }

  function SyncJoined(group: Option<seq<Participant>>, user: UserId, role: OrgRole): Option<seq<Participant>> {
    if group.None? then None else Some(Enter(group.value, user, MapRole(role)))
  }

  function SyncLeft(group: Option<seq<Participant>>, user: UserId): Option<seq<Participant>> {
    if group.None? then None else Some(Exit(group.value, user, Left))
  }

  /** `listing` is the order in which the membership query returns the active members. */
  ghost predicate Lists(members: map<UserId, OrgRole>, listing: seq<UserId>) {
    && (forall u :: u in listing <==> u in members)
    && (forall i, j :: 0 <= i < j < |listing| ==> listing[i] != listing[j])
  }

  function FirstRows(members: map<UserId, OrgRole>, listing: seq<UserId>): (r: seq<Participant>)
    requires forall u :: u in listing ==> u in members
    ensures |r| == |listing|
    ensures forall i :: 0 <= i < |r| ==> r[i] == Participant(listing[i], MapRole(members[listing[i]]), Active)
  {
    seq(|listing|, i requires 0 <= i < |listing| =>
      assert listing[i] in listing;
      Participant(listing[i], MapRole(members[listing[i]]), Active))
  }

  ghost predicate Enabled(s: State, op: Op) {
    op.Open? ==> Lists(s.members, op.listing)
  }

  /** An organization's group is opened by one of its members or an administrator; there is one at most. */
  function Opened(members: map<UserId, OrgRole>, group: Option<seq<Participant>>, op: Op)
    : (Option<seq<Participant>>, Answer)
    requires op.Open? && forall u :: u in op.listing ==> u in members
  {
    if !op.found then (group, NotFound)
    else if op.actor !in members && !op.admin then (group, Denied)
    else if group.Some? then (group, Existing)
    else (Some(FirstRows(members, op.listing)), Done)
  }

  function Added(group: Option<seq<Participant>>, op: Op): (Option<seq<Participant>>, Answer)
    requires op.AddParticipant?
  {
    if group.None? then (group, NotFound)
    else if !op.permitted then (group, Denied)
    else if !op.found then (group, NotFound)
    else if ActiveRowOf(group.value, op.user).Some? then (group, AlreadyThere)
    else (Some(Enter(group.value, op.user, op.given)), Done)
  }

  function Dropped(group: Option<seq<Participant>>, op: Op): (Option<seq<Participant>>, Answer)
    requires op.RemoveParticipant?
  {
    if group.None? || ActiveRowOf(group.value, op.user).None? then (group, NotFound)
    else if !op.permitted then (group, Denied)
    else (Some(Exit(group.value, op.user, Removed)), Done)
  }

  ghost function Step(s: State, op: Op): State
    requires Enabled(s, op)
  {
    match op
    case SetMember(u, role) => s.(members := s.members[u := role])
    case DropMember(u) => s.(members := s.members - {u})
    case CallJoined(u, role) => s.(group := SyncJoined(s.group, u, role))
    case CallLeft(u) => s.(group := SyncLeft(s.group, u))
    case Open(_, _, _, _) => s.(group := Opened(s.members, s.group, op).0)
    case AddParticipant(_, _, _, _) => s.(group := Added(s.group, op).0)
    case RemoveParticipant(_, _) => s.(group := Dropped(s.group, op).0)
  }

  /** The participant table of the group, updated row by row. */
  class OrgGroup {
    var group: Option<seq<Participant>>

    constructor ()
      ensures group == None
    {
      group := None;
    }

    method GetOrCreate(members: map<UserId, OrgRole>, found: bool, actor: UserId, admin: bool, listing: seq<UserId>)
      returns (answer: Answer)
      requires Lists(members, listing)
      modifies this
      ensures (group, answer) == Opened(members, old(group), Open(found, actor, admin, listing))
    {
      if !found { return NotFound; }
      if actor !in members && !admin { return Denied; }
      if group.Some? { return Existing; }
      var rows: seq<Participant> := [];
      for i := 0 to |listing|
        invariant |rows| == i
        invariant rows == FirstRows(members, listing)[..i]
      {
        assert listing[i] in listing;
        var role := Member;
        if members[listing[i]] == OrgOwner { role := Owner; }
        else if members[listing[i]] == OrgAdmin { role := Admin; }
        rows := rows + [Participant(listing[i], role, Active)];
      }
      assert rows == FirstRows(members, listing);
      group := Some(rows);
      answer := Done;
    }

    method SyncMemberJoined(user: UserId, role: OrgRole)
      modifies this
      ensures group == SyncJoined(old(group), user, role)
    {
      if group.None? { return; }
      var rows := group.value;
      var existing := RowOf(rows, user);
      var mapped := Member;
      if role == OrgOwner { mapped := Owner; } else if role == OrgAdmin { mapped := Admin; }
      if existing.Some? {
        var i := existing.value;
        rows := rows[i := rows[i].(status := Active, role := mapped)];
      } else {
        rows := rows + [Participant(user, mapped, Active)];
      }
      group := Some(rows);
    }

    method SyncMemberLeft(user: UserId)
      modifies this
      ensures group == SyncLeft(old(group), user)
    {
      if group.None? { return; }
      var rows := group.value;
      var active := ActiveRowOf(rows, user);
      if active.Some? {
        group := Some(rows[active.value := rows[active.value].(status := Left)]);
      }
    }

    method AddParticipant(user: UserId, given: Role, permitted: bool, found: bool) returns (answer: Answer)
      modifies this
      ensures (group, answer) == Added(old(group), Op.AddParticipant(user, given, permitted, found))
    {
      if group.None? { return NotFound; }
      if !permitted { return Denied; }
      if !found { return NotFound; }
      var rows := group.value;
      var existing := RowOf(rows, user);
      if ActiveRowOf(rows, user).Some? { return AlreadyThere; }
      if existing.Some? {
        var i := existing.value;
        rows := rows[i := rows[i].(status := Active, role := given)];
      } else {
        rows := rows + [Participant(user, given, Active)];
      }
      group := Some(rows);
      answer := Done;
    }

    method RemoveParticipant(user: UserId, permitted: bool) returns (answer: Answer)
      modifies this
      ensures (group, answer) == Dropped(old(group), Op.RemoveParticipant(user, permitted))
    {
      if group.None? { return NotFound; }
      var rows := group.value;
      var target := ActiveRowOf(rows, user);
      if target.None? { return NotFound; }
      if !permitted { return Denied; }
      group := Some(rows[target.value := rows[target.value].(status := Removed)]);
      answer := Done;
    }
  }

  // ---------------------------------------------------------------- replication

  ghost predicate OneRowEach(rows: seq<Participant>) {
    forall i, j :: 0 <= i < j < |rows| ==> rows[i].user != rows[j].user
  }

  ghost predicate Participates(rows: seq<Participant>, u: UserId) {
    exists i :: 0 <= i < |rows| && rows[i].user == u && rows[i].status == Active
  }

  ghost predicate RowsOk(s: State) {
    s.group.Some? ==> OneRowEach(s.group.value)
  }

  /** Once the group exists, its active participants are the active members. */
  ghost predicate Replicated(s: State) {
    s.group.Some? ==> forall u :: Participates(s.group.value, u) <==> u in s.members
  }

  lemma EnterActivates(rows: seq<Participant>, user: UserId, role: Role)
    requires OneRowEach(rows)
    ensures OneRowEach(Enter(rows, user, role))
    ensures forall u :: Participates(Enter(rows, user, role), u) <==> u == user || Participates(rows, u)
  {
    var rows' := Enter(rows, user, role);
    var k := if RowOf(rows, user).Some? then RowOf(rows, user).value else |rows|;
    assert rows'[k] == Participant(user, role, Active);
    forall u ensures Participates(rows', u) <==> u == user || Participates(rows, u) {
      if i :| 0 <= i < |rows| && rows[i].user == u && rows[i].status == Active { assert i == k || rows'[i] == rows[i]; }
    }
  }

  lemma ExitDeactivates(rows: seq<Participant>, user: UserId, status: Status)
    requires OneRowEach(rows) && status != Active
    ensures OneRowEach(Exit(rows, user, status))
    ensures forall u :: Participates(Exit(rows, user, status), u) <==> u != user && Participates(rows, u)
  {
    var rows' := Exit(rows, user, status);
    forall u ensures Participates(rows', u) <==> u != user && Participates(rows, u) {
      if i :| 0 <= i < |rows| && rows[i].user == u && rows[i].status == Active && u != user {
        assert rows'[i] == rows[i];
      }
    }
  }

  lemma FirstRowsReplicate(members: map<UserId, OrgRole>, listing: seq<UserId>)
    requires Lists(members, listing)
    ensures OneRowEach(FirstRows(members, listing))
    ensures forall u :: Participates(FirstRows(members, listing), u) <==> u in members
  {
    var rows := FirstRows(members, listing);
    forall u ensures Participates(rows, u) <==> u in members {
      if u in members {
        var i :| 0 <= i < |listing| && listing[i] == u;
        assert rows[i].user == u;
      }
      if i :| 0 <= i < |rows| && rows[i].user == u && rows[i].status == Active { assert listing[i] in listing; }
    }
  }

  /** The user an operation brings in or takes out of the group, and which of the two. */
  ghost function Says(op: Op, u: UserId): Option<bool> {
    match op
    case CallJoined(v, _) => if u == v then Some(true) else None
    case CallLeft(v) => if u == v then Some(false) else None
    case AddParticipant(v, _, permitted, found) => if u == v && permitted && found then Some(true) else None
    case RemoveParticipant(v, permitted) => if u == v && permitted then Some(false) else None
    case _ => None
  }

  /** One operation on an existing group moves exactly the user it speaks of. */
  lemma StepMoves(s: State, op: Op)
    requires Enabled(s, op) && RowsOk(s) && s.group.Some?
    ensures RowsOk(Step(s, op)) && Step(s, op).group.Some?
    ensures forall u :: Participates(Step(s, op).group.value, u) <==>
      if Says(op, u).Some? then Says(op, u).value else Participates(s.group.value, u)
  {
    var rows := s.group.value;
    hide OneRowEach;
    match op
    case CallJoined(u, role) => EnterActivates(rows, u, MapRole(role));
    case CallLeft(u) => ExitDeactivates(rows, u, Left);
    case AddParticipant(u, role, _, _) => EnterActivates(rows, u, role);
    case RemoveParticipant(u, _) => ExitDeactivates(rows, u, Removed);
    case _ =>
  }

  /** Every operation keeps one row per user. */
  lemma StepKeepsRows(s: State, op: Op)
    requires Enabled(s, op) && RowsOk(s)
    ensures RowsOk(Step(s, op))
  {
    hide Step;
    if s.group.Some? { StepMoves(s, op); } else { OpenReplicates(s, op); }
  }

  /** A group that comes into being mirrors the memberships. */
  lemma OpenReplicates(s: State, op: Op)
    requires Enabled(s, op) && s.group.None?
    ensures RowsOk(Step(s, op)) && Replicated(Step(s, op))
  {
    if op.Open? { FirstRowsReplicate(s.members, op.listing); }
  }

  /** What an operation does agrees with what the memberships are after it. */
  ghost predicate Agrees(s: State, op: Op) {
    match op
    case SetMember(u, _) => u in s.members
    case DropMember(u) => u !in s.members
    case _ => forall u :: Says(op, u).Some? ==> (Says(op, u).value <==> u in s.members)
  }

  /** Main result 1: on an existing group that mirrors the memberships, one operation keeps that so exactly when it
      agrees with them. A membership change alone therefore breaks it, and its call restores it. */
  lemma StepReplicatesIff(s: State, op: Op)
    requires Enabled(s, op) && RowsOk(s) && Replicated(s) && s.group.Some?
    ensures Replicated(Step(s, op)) <==> Agrees(s, op)
  {
    StepMoves(s, op);
    hide Participates;
    match op
    case SetMember(u, _) => assert u in Step(s, op).members;
    case DropMember(u) => assert u !in Step(s, op).members;
    case _ => assert Step(s, op).members == s.members;
  }

  // ---------------------------------------------------------------- whole runs

  datatype Trace = Trace(states: seq<State>, ops: seq<Op>)

  ghost predicate Link(tr: Trace, i: nat)
    requires i < |tr.ops| && |tr.states| == |tr.ops| + 1
  {
    Enabled(tr.states[i], tr.ops[i]) && tr.states[i + 1] == Step(tr.states[i], tr.ops[i])
  }

  ghost predicate Run(tr: Trace) {
    && |tr.states| == |tr.ops| + 1 && tr.states[0] == EMPTY
    && forall i :: 0 <= i < |tr.ops| ==> Link(tr, i)
  }

  /** Where the calls leave a user: where the last operation that speaks of the user since the group exists puts it,
      or in the group if the user was a member when the group was created. */
  ghost predicate InByCalls(tr: Trace, n: nat, u: UserId)
    requires n <= |tr.ops| < |tr.states|
  {
    if n == 0 then false
    else
      var s, op := tr.states[n - 1], tr.ops[n - 1];
      if s.group.None? then tr.states[n].group.Some? && u in s.members
      else if Says(op, u).Some? then Says(op, u).value
      else InByCalls(tr, n - 1, u)
  }

  ghost predicate FollowsCalls(tr: Trace, n: nat)
    requires n <= |tr.ops| < |tr.states|
  {
    tr.states[n].group.Some? ==>
      forall u :: Participates(tr.states[n].group.value, u) <==> InByCalls(tr, n, u)
  }

  /** Main result 2: on every run the group has one row per user and exactly the participants its calls put there. */
  lemma {:induction false} GroupFollowsCalls(tr: Trace, n: nat)
    requires Run(tr) && n < |tr.states|
    ensures RowsOk(tr.states[n]) && FollowsCalls(tr, n)
  {
    if n > 0 {
      GroupFollowsCalls(tr, n - 1);
      assert Link(tr, n - 1);
      var s, op := tr.states[n - 1], tr.ops[n - 1];
      if s.group.Some? {
        StepMoves(s, op);
        hide Step, Participates, Says;
      } else {
        OpenReplicates(s, op);
        assert tr.states[n].group.Some? ==> tr.states[n].members == s.members;
        hide Step, Participates, Says;
      }
    }
  }

  ghost predicate CallsAgree(tr: Trace, n: nat)
    requires n <= |tr.ops| < |tr.states|
  {
    tr.states[n].group.Some? ==> forall u :: InByCalls(tr, n, u) <==> u in tr.states[n].members
  }

  /** Main result 3: at any point of any run the group mirrors the memberships exactly when, for every user, the last
      call about the user says what the memberships say. */
  lemma ReplicatedIffCallsAgree(tr: Trace, n: nat)
    requires Run(tr) && n < |tr.states|
    ensures Replicated(tr.states[n]) <==> CallsAgree(tr, n)
  {
    GroupFollowsCalls(tr, n);
    hide Participates, InByCalls;
  }

  /** The user whose membership the last operation changed. */
  ghost function Pending(tr: Trace, n: nat): Option<UserId>
    requires n <= |tr.ops|
  {
    if n > 0 && (tr.ops[n - 1].SetMember? || tr.ops[n - 1].DropMember?) then Some(tr.ops[n - 1].user) else None
  }

  /** Every membership change is followed at once by a call about that user, and calls and manual changes say what the
      memberships are. */
  ghost predicate Prompt(tr: Trace, n: nat)
    requires n <= |tr.ops| < |tr.states|
  {
    forall i: nat :: i < n ==> PromptAt(tr, i)
  }

  ghost predicate PromptAt(tr: Trace, i: nat)
    requires i < |tr.ops| < |tr.states|
  {
    && (Pending(tr, i).Some? ==> Says(tr.ops[i], Pending(tr, i).value).Some?)
    && (forall u :: Says(tr.ops[i], u).Some? ==> (Says(tr.ops[i], u).value <==> u in tr.states[i].members))
  }

  lemma {:induction false} PromptCallsAgree(tr: Trace, n: nat)
    requires Run(tr) && n < |tr.states| && Prompt(tr, n) && tr.states[n].group.Some?
    ensures forall u: UserId :: Some(u) != Pending(tr, n) ==> (InByCalls(tr, n, u) <==> u in tr.states[n].members)
  {
    if n > 0 {
      assert Link(tr, n - 1) && PromptAt(tr, n - 1);
      var s, op := tr.states[n - 1], tr.ops[n - 1];
      if s.group.Some? { PromptCallsAgree(tr, n - 1); }
    }
  }

  /** Hence, whatever the order of joins, leaves, repeated calls and the moment of creation, a group whose membership
      changes are all followed by their calls mirrors the memberships. */
  lemma RunReplicates(tr: Trace, n: nat)
    requires Run(tr) && n < |tr.states| && Prompt(tr, n) && Pending(tr, n).None?
    ensures RowsOk(tr.states[n]) && Replicated(tr.states[n])
  {
    ReplicatedIffCallsAgree(tr, n);
    GroupFollowsCalls(tr, n);
    if tr.states[n].group.Some? { PromptCallsAgree(tr, n); }
    hide Replicated, InByCalls, Prompt;
  }

  /** A run that misses a call: user 2 joins after user 1 opened the group, and nobody tells the group. */
  lemma MissedCallFails() returns (tr: Trace)
    ensures Run(tr) && |tr.ops| == 3 && !Replicated(tr.states[3])
  {
    var one := map[1 := OrgMember];
    var group := Some([Participant(1, Member, Active)]);
    var ops := [SetMember(1, OrgMember), Open(true, 1, false, [1]), SetMember(2, OrgMember)];
    tr := Trace([EMPTY, State(one, None), State(one, group), State(one[2 := OrgMember], group)], ops);
    assert EMPTY.members[1 := OrgMember] == one;
    assert FirstRows(one, [1]) == group.value;
    assert Link(tr, 0) && Link(tr, 1) && Link(tr, 2);
    assert 2 in tr.states[3].members && !Participates(group.value, 2);
  }

  // ---------------------------------------------------------------- roles over a run

  /** The role history gives a user: that of the last call or addition since the group exists,
      or that of the membership at the group's creation. */
  ghost function RoleByHistory(tr: Trace, n: nat, u: UserId): Option<Role>
    requires n <= |tr.ops| < |tr.states|
  {
    if n == 0 then None
    else
      var s, op := tr.states[n - 1], tr.ops[n - 1];
      if s.group.None? then
        if tr.states[n].group.Some? && u in s.members then Some(MapRole(s.members[u])) else None
      else if op.CallJoined? && op.user == u then Some(MapRole(op.role))
      else if op.AddParticipant? && op.user == u && Added(s.group, op).1 == Done then Some(op.given)
      else RoleByHistory(tr, n - 1, u)
  }

  ghost predicate RolesOk(tr: Trace, n: nat)
    requires n <= |tr.ops| < |tr.states|
  {
    tr.states[n].group.Some? ==>
      forall i :: 0 <= i < |tr.states[n].group.value| ==>
        RoleByHistory(tr, n, tr.states[n].group.value[i].user) == Some(tr.states[n].group.value[i].role)
  }

  lemma RowsWithRole(rows: seq<Participant>, user: UserId, role: Role)
    requires OneRowEach(rows)
    ensures var rows' := Enter(rows, user, role);
      forall i :: 0 <= i < |rows'| ==>
        if rows'[i].user == user then rows'[i].role == role else i < |rows| && rows'[i] == rows[i]
  {
  }

  lemma ExitKeepsRoles(rows: seq<Participant>, user: UserId, status: Status)
    ensures var rows' := Exit(rows, user, status);
      && |rows'| == |rows|
      && forall i :: 0 <= i < |rows| ==> rows'[i].user == rows[i].user && rows'[i].role == rows[i].role
  {
  }

  /** Main result 4: on every run every row carries the role its user's history gives. */
  lemma {:induction false} RunKeepsRoles(tr: Trace, n: nat)
    requires Run(tr) && n < |tr.states|
    ensures RowsOk(tr.states[n]) && RolesOk(tr, n)
  {
    if n > 0 {
      RunKeepsRoles(tr, n - 1);
      GroupFollowsCalls(tr, n);
      assert Link(tr, n - 1);
      var s, op := tr.states[n - 1], tr.ops[n - 1];
      if s.group.Some? {
        match op
        case CallJoined(u, role) => RowsWithRole(s.group.value, u, MapRole(role));
        case AddParticipant(u, role, _, _) => RowsWithRole(s.group.value, u, role);
        case CallLeft(u) => ExitKeepsRoles(s.group.value, u, Left);
        case RemoveParticipant(u, _) => ExitKeepsRoles(s.group.value, u, Removed);
        case _ =>
      }
    }
  }

  // ---------------------------------------------------------------- what each operation answers and changes

  /** The role a membership gives in the group. */
  ghost predicate RoleFor(r: OrgRole, role: Role) {
    (r == OrgOwner <==> role == Owner) && (r == OrgAdmin <==> role == Admin)
  }

  /** Every member has one active row with the membership's role, and nobody else has a row. */
  ghost predicate RowPerMember(rows: seq<Participant>, members: map<UserId, OrgRole>) {
    && OneRowEach(rows)
    && (forall u :: u in members ==> exists i: nat :: i < |rows| && rows[i].user == u)
    && forall i :: 0 <= i < |rows| ==>
         rows[i].user in members && rows[i].status == Active && RoleFor(members[rows[i].user], rows[i].role)
  }

  /** Main result 5: an existing organization's group is opened exactly by its members and by administrators; the first
      time, it gets one active row per member with the membership's role, and afterwards it stays as it is. */
  lemma OpeningAnswers(members: map<UserId, OrgRole>, group: Option<seq<Participant>>, op: Op)
    requires op.Open? && Lists(members, op.listing)
    ensures var (group', a) := Opened(members, group, op);
      && (a == NotFound <==> !op.found)
      && (a == Denied <==> op.found && op.actor !in members && !op.admin)
      && (a == Existing <==> op.found && (op.actor in members || op.admin) && group.Some?)
      && (a == Done <==> op.found && (op.actor in members || op.admin) && group.None?)
      && (a != Done ==> group' == group)
      && (a == Done ==> group'.Some? && RowPerMember(group'.value, members))
  {
    var rows := FirstRows(members, op.listing);
    FirstRowsReplicate(members, op.listing);
    hide FirstRows;
    forall u | u in members ensures exists i: nat :: i < |rows| && rows[i].user == u {
      var i: nat :| i < |op.listing| && op.listing[i] == u;
      assert rows[i].user == u;
    }
    forall i | 0 <= i < |rows| ensures rows[i].user in members { assert op.listing[i] in op.listing; }
  }

  /** The user has one row, which is this, and the rows of the others are as they were. */
  ghost predicate RowBecame(rows: seq<Participant>, rows': seq<Participant>, p: Participant) {
    && OneRowEach(rows') && p in rows'
    && (forall q :: q in rows' && q.user == p.user ==> q == p)
    && forall q: Participant :: q.user != p.user ==> (q in rows' <==> q in rows)
  }

  lemma EnterChanges(rows: seq<Participant>, user: UserId, role: Role)
    requires OneRowEach(rows)
    ensures RowBecame(rows, Enter(rows, user, role), Participant(user, role, Active))
  {
    var rows', p := Enter(rows, user, role), Participant(user, role, Active);
    EnterActivates(rows, user, role);
    var n := if RowOf(rows, user).Some? then RowOf(rows, user).value else |rows|;
    assert rows'[n] == p;
    SameButOne(rows, rows', n, user);
    hide RowOf, OneRowEach;
    forall q | q in rows' && q.user == user ensures q == p {
      var i :| 0 <= i < |rows'| && rows'[i] == q;
      RowsDiffer(rows', i, n);
    }
  }

  lemma RowsDiffer(rows: seq<Participant>, i: nat, j: nat)
    requires OneRowEach(rows) && i < |rows| && j < |rows| && rows[i].user == rows[j].user
    ensures i == j
  {
  }

  /** Changing or adding the row at `n`, which is the user's, leaves the others' rows alone. */
  lemma SameButOne(rows: seq<Participant>, rows': seq<Participant>, n: nat, user: UserId)
    requires n <= |rows| && n < |rows'| && (|rows'| == |rows| || (n == |rows| && |rows'| == n + 1))
    requires forall i :: 0 <= i < |rows| && i != n ==> rows'[i] == rows[i]
    requires rows'[n].user == user && (n < |rows| ==> rows[n].user == user)
    ensures forall q: Participant :: q.user != user ==> (q in rows' <==> q in rows)
  {
    forall q: Participant | q.user != user ensures q in rows' <==> q in rows {
      if q in rows {
        var i :| 0 <= i < |rows| && rows[i] == q;
        assert rows'[i] == q;
      }
    }
  }

  /** The user's active row, and with it nothing else, took this status. */
  ghost predicate StatusBecame(rows: seq<Participant>, rows': seq<Participant>, user: UserId, status: Status) {
    exists role :: Participant(user, role, Active) in rows && RowBecame(rows, rows', Participant(user, role, status))
  }

  /** The user's row is active with the membership's role, and nothing else changed. */
  ghost predicate JoinedAs(rows: seq<Participant>, rows': seq<Participant>, user: UserId, r: OrgRole) {
    exists role :: RoleFor(r, role) && RowBecame(rows, rows', Participant(user, role, Active))
  }

  lemma ExitChanges(rows: seq<Participant>, user: UserId, status: Status)
    requires OneRowEach(rows) && status != Active && Participates(rows, user)
    ensures StatusBecame(rows, Exit(rows, user, status), user, status)
  {
    ExitDeactivates(rows, user, status);
    var n := ActiveRowOf(rows, user).value;
    var rows', p := Exit(rows, user, status), rows[n].(status := status);
    assert rows[n] == Participant(user, rows[n].role, Active) && rows'[n] == p;
    SameButOne(rows, rows', n, user);
    hide ActiveRowOf, OneRowEach, Exit;
    forall q | q in rows' && q.user == user ensures q == p {
      var i :| 0 <= i < |rows'| && rows'[i] == q;
      RowsDiffer(rows', i, n);
    }
  }

  /** Main result 6: an addition needs a group, permission and a known user who does not participate; the user then
      participates with the role given. */
  lemma AdditionAnswers(group: Option<seq<Participant>>, op: Op)
    requires op.AddParticipant? && (group.Some? ==> OneRowEach(group.value))
    ensures var (group', a) := Added(group, op);
      && (a == Done <==> (
            group.Some? && op.permitted && op.found && !Participates(group.value, op.user)))
      && (a == AlreadyThere <==> group.Some? && op.permitted && op.found && Participates(group.value, op.user))
      && (a == Denied <==> group.Some? && !op.permitted)
      && (a == NotFound <==> group.None? || (op.permitted && !op.found))
      && (a != Done ==> group' == group)
      && (a == Done ==> (
            group'.Some? && RowBecame(group.value, group'.value, Participant(op.user, op.given, Active))))
  {
    if group.Some? { EnterChanges(group.value, op.user, op.given); }
    hide Enter, RowBecame;
  }

  /** Main result 7: a removal needs a participant and permission; the participant's row keeps its role and is marked
      removed. */
  lemma RemovalAnswers(group: Option<seq<Participant>>, op: Op)
    requires op.RemoveParticipant? && (group.Some? ==> OneRowEach(group.value))
    ensures var (group', a) := Dropped(group, op);
      && (a == Done <==> group.Some? && Participates(group.value, op.user) && op.permitted)
      && (a == Denied <==> group.Some? && Participates(group.value, op.user) && !op.permitted)
      && (a != Done && a != Denied ==> a == NotFound)
      && (a != Done ==> group' == group)
      && (a == Done ==> group'.Some? && StatusBecame(group.value, group'.value, op.user, Removed))
  {
    if group.Some? && Participates(group.value, op.user) { ExitChanges(group.value, op.user, Removed); }
    hide Exit, StatusBecame;
  }

  /** A call about a member joining gives the user an active row with the membership's role; one about a member leaving
      marks the participant as having left. Without a group neither does anything. */
  lemma CallsChange(s: State, op: Op)
    requires Enabled(s, op) && (op.CallJoined? || op.CallLeft?) && RowsOk(s)
    ensures var s' := Step(s, op);
      && s'.members == s.members && (s.group.None? ==> s' == s)
      && (s.group.Some? && op.CallJoined? ==>
            s'.group.Some? && JoinedAs(s.group.value, s'.group.value, op.user, op.role))
      && (s.group.Some? && op.CallLeft? && Participates(s.group.value, op.user) ==>
            s'.group.Some? && StatusBecame(s.group.value, s'.group.value, op.user, Left))
      && (s.group.Some? && op.CallLeft? && !Participates(s.group.value, op.user) ==> s' == s)
  {
    if s.group.Some? {
      if op.CallJoined? {
        EnterChanges(s.group.value, op.user, MapRole(op.role));
        assert RoleFor(op.role, MapRole(op.role));
      } else if Participates(s.group.value, op.user) {
        ExitChanges(s.group.value, op.user, Left);
      }
    }
    hide Enter, Exit, RowBecame, StatusBecame;
  }
}
