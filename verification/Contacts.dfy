/**
 Contact requests: one relationship row per pair of users, moving between pending, accepted,
 rejected and deleted.
 */
module ContactsModel {
  import opened Wrappers

  type UserId = nat
  type RelId = nat

  datatype Status = Pending | Accepted | Rejected | Deleted

  /** `marked` is the deletion time stamp being set. */
  datatype Rel = Rel(id: RelId, requester: UserId, addressee: UserId, status: Status, marked: bool)

  datatype Op =
    | Request(actor: UserId, target: UserId, targetActive: bool, freshId: RelId)
    | Accept(actor: UserId, rel: RelId)
    | Reject(actor: UserId, rel: RelId)
    | DeleteContact(actor: UserId, user: UserId)

  datatype Answer = SelfNotAllowed | NotFound | Shown(rel: Rel) | Gone

  predicate Between(r: Rel, a: UserId, b: UserId) {
    (r.requester == a && r.addressee == b) || (r.requester == b && r.addressee == a)
  }

  function FindBetween(rows: seq<Rel>, a: UserId, b: UserId): (k: Option<nat>)
    ensures k.Some? ==> k.value < |rows| && Between(rows[k.value], a, b)
    ensures k.None? ==> forall i :: 0 <= i < |rows| ==> !Between(rows[i], a, b)
  {
    if rows == [] then None
    else if Between(rows[0], a, b) then Some(0)
    else
      match FindBetween(rows[1..], a, b)
      case None => None
      case Some(i) => Some(i + 1)
  }

  function ById(rows: seq<Rel>, id: RelId): (k: Option<nat>)
    ensures k.Some? ==> k.value < |rows| && rows[k.value].id == id
    ensures k.None? ==> forall i :: 0 <= i < |rows| ==> rows[i].id != id
  {
    if rows == [] then None
    else if rows[0].id == id then Some(0)
    else
      match ById(rows[1..], id)
      case None => None
      case Some(i) => Some(i + 1)
  }

  function Step(rows: seq<Rel>, op: Op): (seq<Rel>, Answer) {
    match op
    case Request(actor, target, active, id) =>
      if target == actor then (rows, SelfNotAllowed)
      else if !active then (rows, NotFound)
      else (
        match FindBetween(rows, actor, target)
        case Some(k) =>
          if rows[k].status == Deleted || rows[k].status == Rejected then
            var r := Rel(rows[k].id, actor, target, Pending, false);
            (rows[k := r], Shown(r))
          else (rows, Shown(rows[k]))
        case None =>
          var r := Rel(id, actor, target, Pending, false);
          (rows + [r], Shown(r)))
    case Accept(actor, id) => Respond(rows, actor, id, Accepted)
    case Reject(actor, id) => Respond(rows, actor, id, Rejected)
    case DeleteContact(actor, user) =>
      var k := FindBetween(rows, actor, user);
      if k.None? || rows[k.value].status != Accepted then (rows, NotFound)
      else (rows[k.value := rows[k.value].(status := Deleted, marked := true)], Gone)
  }

  /** Only the addressee may respond, and only a pending request changes. */
  function Respond(rows: seq<Rel>, actor: UserId, id: RelId, verdict: Status): (seq<Rel>, Answer) {
    var k := ById(rows, id);
    if k.None? || rows[k.value].addressee != actor then (rows, NotFound)
    else if rows[k.value].status != Pending then (rows, Shown(rows[k.value]))
    else
      var r := rows[k.value].(status := verdict);
      (rows[k.value := r], Shown(r))
  }

  predicate Lists(r: Rel, actor: UserId) {
    r.status == Accepted && !r.marked && (r.requester == actor || r.addressee == actor)
  }

  function Other(r: Rel, actor: UserId): UserId {
    if r.requester == actor then r.addressee else r.requester
  }

  /** The other ends of the actor's accepted relationships. */
  function ListContacts(rows: seq<Rel>, actor: UserId): seq<UserId> {
    if rows == [] then []
    else
      var rest, r := ListContacts(rows[..|rows| - 1], actor), rows[|rows| - 1];
      if Lists(r, actor) then rest + [Other(r, actor)] else rest
  }

  class ContactBook {
    var rows: seq<Rel>

    constructor ()
      ensures rows == []
    {
      rows := [];
    }

    method CreateContactRequest(actor: UserId, target: UserId, targetActive: bool, freshId: RelId) returns (a: Answer)
      modifies this
      ensures (rows, a) == Step(old(rows), Request(actor, target, targetActive, freshId))
    {
      if target == actor { return SelfNotAllowed; }
      if !targetActive { return NotFound; }
      var existing := FindBetween(rows, actor, target);
      if existing.Some? {
        var k := existing.value;
        if rows[k].status == Deleted || rows[k].status == Rejected {
          rows := rows[k := rows[k].(requester := actor, addressee := target, status := Pending, marked := false)];
        }
        return Shown(rows[k]);
      }
      var r := Rel(freshId, actor, target, Pending, false);
      rows := rows + [r];
      a := Shown(r);
    }

    method AcceptContactRequest(actor: UserId, id: RelId) returns (a: Answer)
      modifies this
      ensures (rows, a) == Step(old(rows), Accept(actor, id))
    {
      var k := ById(rows, id);
      if k.None? || rows[k.value].addressee != actor { return NotFound; }
      if rows[k.value].status != Pending { return Shown(rows[k.value]); }
      rows := rows[k.value := rows[k.value].(status := Accepted)];
      a := Shown(rows[k.value]);
    }

    method RejectContactRequest(actor: UserId, id: RelId) returns (a: Answer)
      modifies this
      ensures (rows, a) == Step(old(rows), Reject(actor, id))
    {
      var k := ById(rows, id);
      if k.None? || rows[k.value].addressee != actor { return NotFound; }
      if rows[k.value].status == Pending {
        rows := rows[k.value := rows[k.value].(status := Rejected)];
      }
      a := Shown(rows[k.value]);
    }

    method RemoveContact(actor: UserId, user: UserId) returns (a: Answer)
      modifies this
      ensures (rows, a) == Step(old(rows), DeleteContact(actor, user))
    {
      var k := FindBetween(rows, actor, user);
      if k.None? || rows[k.value].status != Accepted { return NotFound; }
      rows := rows[k.value := rows[k.value].(status := Deleted, marked := true)];
      a := Gone;
    }
  }

  // ---------------------------------------------------------------- one row per pair

  ghost predicate Inv(rows: seq<Rel>) {
    && (forall i :: 0 <= i < |rows| ==> rows[i].requester != rows[i].addressee)
    && (forall i :: 0 <= i < |rows| ==> (rows[i].marked <==> rows[i].status == Deleted))
    && (forall i, j :: 0 <= i < j < |rows| ==>
          rows[i].id != rows[j].id && !Between(rows[i], rows[j].requester, rows[j].addressee))
  }

  ghost predicate FreshId(rows: seq<Rel>, op: Op) {
    op.Request? ==> forall i :: 0 <= i < |rows| ==> rows[i].id != op.freshId
  }

  lemma StepKeepsInv(rows: seq<Rel>, op: Op)
    requires Inv(rows) && FreshId(rows, op)
    ensures Inv(Step(rows, op).0)
  {
    var rows' := Step(rows, op).0;
    if |rows'| > |rows| {
      AppendKeepsInv(rows, rows'[|rows|]);
    } else if rows' != rows {
      var k := if op.Request? then FindBetween(rows, op.actor, op.target).value
               else if op.DeleteContact? then FindBetween(rows, op.actor, op.user).value
               else ById(rows, op.rel).value;
      hide Inv;
      ReplaceKeepsInv(rows, k, rows'[k]);
    }
  }

  lemma AppendKeepsInv(rows: seq<Rel>, r: Rel)
    requires Inv(rows) && r.requester != r.addressee && (r.marked <==> r.status == Deleted)
    requires forall i :: 0 <= i < |rows| ==> rows[i].id != r.id && !Between(rows[i], r.requester, r.addressee)
    ensures Inv(rows + [r])
  {
  }

  lemma ReplaceKeepsInv(rows: seq<Rel>, k: nat, r: Rel)
    requires Inv(rows) && k < |rows| && r.id == rows[k].id && (r.marked <==> r.status == Deleted)
    requires Between(rows[k], r.requester, r.addressee)
    ensures Inv(rows[k := r])
  {
    forall i | 0 <= i < |rows| && i != k
      ensures !Between(rows[i], r.requester, r.addressee) && !Between(r, rows[i].requester, rows[i].addressee)
    {
      if i < k { assert !Between(rows[i], rows[k].requester, rows[k].addressee); }
      else { assert !Between(rows[k], rows[i].requester, rows[i].addressee); }
    }
  }

  datatype Trace = Trace(states: seq<seq<Rel>>, ops: seq<Op>)

  ghost predicate Link(tr: Trace, i: nat)
    requires i < |tr.ops| && |tr.states| == |tr.ops| + 1
  {
    FreshId(tr.states[i], tr.ops[i]) && tr.states[i + 1] == Step(tr.states[i], tr.ops[i]).0
  }

  ghost predicate Run(tr: Trace) {
    && |tr.states| == |tr.ops| + 1
    && tr.states[0] == []
    && forall i :: 0 <= i < |tr.ops| ==> Link(tr, i)
  }

  /** Main result 1: over any run there is at most one row per unordered pair and none to oneself. */
  lemma {:induction false} ReachableInv(tr: Trace, n: nat)
    requires Run(tr) && n < |tr.states|
    ensures Inv(tr.states[n])
  {
    if n > 0 {
      ReachableInv(tr, n - 1);
      assert Link(tr, n - 1);
      StepKeepsInv(tr.states[n - 1], tr.ops[n - 1]);
    }
  }

  // ---------------------------------------------------------------- who asked and who agreed

  /** Row `k` has been `r` in every state after `from` up to `to`. */
  ghost predicate Steady(tr: Trace, k: nat, r: Rel, from: nat, to: nat) {
    to < |tr.states| && forall m :: from < m <= to ==> k < |tr.states[m]| && tr.states[m][k] == r
  }

  ghost predicate AskedAt(tr: Trace, i: nat, r: Rel) {
    i < |tr.ops| && tr.ops[i].Request? && tr.ops[i].actor == r.requester && tr.ops[i].target == r.addressee
  }

  /** The requester's request made row `k` pending at step `i` and it has been so since. */
  ghost predicate PendingSince(tr: Trace, k: nat, r: Rel, i: nat, n: nat) {
    AskedAt(tr, i, r) && i < n && Steady(tr, k, r, i, n)
  }

  /** The requester asked at step `i`, the addressee accepted at step `j`, and nothing else happened to row `k`. */
  ghost predicate AcceptedSince(tr: Trace, k: nat, r: Rel, i: nat, j: nat, n: nat) {
    && AskedAt(tr, i, r) && i < j < n <= |tr.ops|
    && tr.ops[j] == Accept(r.addressee, r.id)
    && Steady(tr, k, r.(status := Pending), i, j) && Steady(tr, k, r, j, n)
  }

  /** The row an operation changes, if it changes one that was there. */
  lemma ChangedRow(rows: seq<Rel>, op: Op, k: nat)
    requires Inv(rows) && k < |rows|
    ensures var rows' := Step(rows, op).0;
      k < |rows'| && (rows'[k] == rows[k] || (
        && (rows'[k].status == Pending ==>
              op.Request? && op.actor == rows'[k].requester && op.target == rows'[k].addressee)
        && (rows'[k].status == Accepted ==>
              op == Accept(rows'[k].addressee, rows'[k].id) && rows[k] == rows'[k].(status := Pending))))
  {
  }

  lemma SteadyOneMore(tr: Trace, k: nat, r: Rel, from: nat, n: nat)
    requires n > 0 && Steady(tr, k, r, from, n - 1)
    requires n < |tr.states| && k < |tr.states[n]| && tr.states[n][k] == r
    ensures Steady(tr, k, r, from, n)
  {
  }

  lemma {:induction false} PendingHasRequest(tr: Trace, n: nat, k: nat) returns (i: nat)
    requires Run(tr) && n < |tr.states| && k < |tr.states[n]| && tr.states[n][k].status == Pending
    ensures PendingSince(tr, k, tr.states[n][k], i, n)
  {
    assert Link(tr, n - 1);
    ReachableInv(tr, n - 1);
    var before, r := tr.states[n - 1], tr.states[n][k];
    if k < |before| && before[k] == r {
      i := PendingHasRequest(tr, n - 1, k);
      SteadyOneMore(tr, k, r, i, n);
    } else {
      if k < |before| { ChangedRow(before, tr.ops[n - 1], k); }
      i := n - 1;
    }
  }

  /** Main result 2: behind every accepted contact stands a request by its requester and, later, an acceptance by
      its addressee, with nothing in between or since. */
  lemma {:induction false} AcceptedHasConsent(tr: Trace, n: nat, k: nat) returns (i: nat, j: nat)
    requires Run(tr) && n < |tr.states| && k < |tr.states[n]| && tr.states[n][k].status == Accepted
    ensures AcceptedSince(tr, k, tr.states[n][k], i, j, n)
  {
    assert Link(tr, n - 1);
    ReachableInv(tr, n - 1);
    var before, r := tr.states[n - 1], tr.states[n][k];
    if k < |before| && before[k] == r {
      i, j := AcceptedHasConsent(tr, n - 1, k);
      SteadyOneMore(tr, k, r, j, n);
    } else {
      assert k < |before|;
      ChangedRow(before, tr.ops[n - 1], k);
      i := PendingHasRequest(tr, n - 1, k);
      j := n - 1;
    }
  }

  // ---------------------------------------------------------------- contact lists

  lemma {:induction false} ListedIff(rows: seq<Rel>, a: UserId, b: UserId)
    ensures b in ListContacts(rows, a) <==> exists i :: 0 <= i < |rows| && Lists(rows[i], a) && Other(rows[i], a) == b
  {
    if rows != [] {
      var rest, r := rows[..|rows| - 1], rows[|rows| - 1];
      ListedIff(rest, a, b);
      if i :| 0 <= i < |rest| && Lists(rest[i], a) && Other(rest[i], a) == b {
        assert Lists(rows[i], a);
      }
      if i :| 0 <= i < |rows| && Lists(rows[i], a) && Other(rows[i], a) == b {
        if i < |rest| { assert Lists(rest[i], a); }
      }
    }
  }

  /** Main result 3: contact lists are symmetric, free of repetitions and of the actor. */
  lemma ListsAreSymmetric(rows: seq<Rel>, a: UserId, b: UserId)
    requires Inv(rows)
    ensures b in ListContacts(rows, a) <==> a in ListContacts(rows, b)
    ensures a !in ListContacts(rows, a)
  {
    ListedIff(rows, a, b);
    ListedIff(rows, b, a);
    ListedIff(rows, a, a);
    if i :| 0 <= i < |rows| && Lists(rows[i], a) && Other(rows[i], a) == b {
      assert Lists(rows[i], b) && Other(rows[i], b) == a;
    }
    if i :| 0 <= i < |rows| && Lists(rows[i], b) && Other(rows[i], b) == a {
      assert Lists(rows[i], a) && Other(rows[i], a) == b;
    }
  }

  lemma {:induction false} ListsHaveNoRepeats(rows: seq<Rel>, a: UserId)
    requires Inv(rows)
    ensures forall i, j :: 0 <= i < j < |ListContacts(rows, a)| ==> ListContacts(rows, a)[i] != ListContacts(rows, a)[j]
  {
    if rows != [] {
      var rest, r := rows[..|rows| - 1], rows[|rows| - 1];
      ListsHaveNoRepeats(rest, a);
      if Lists(r, a) {
        ListedIff(rest, a, Other(r, a));
        forall i | 0 <= i < |rest| ensures !(Lists(rest[i], a) && Other(rest[i], a) == Other(r, a)) {
          assert !Between(rows[i], rows[|rows| - 1].requester, rows[|rows| - 1].addressee);
        }
        var listed := ListContacts(rest, a);
        assert forall i :: 0 <= i < |listed| ==> listed[i] in listed;
      }
    }
  }

  // ---------------------------------------------------------------- what each operation changes

  /** A pending request of the actor to the target. */
  ghost predicate Asks(r: Rel, id: RelId, actor: UserId, target: UserId) {
    r == Rel(id, actor, target, Pending, false)
  }

  /** What a request does to the row between the two users. */
  ghost predicate AskedOn(rows: seq<Rel>, rows': seq<Rel>, k: nat, op: Op, a: Answer)
    requires op.Request? && k < |rows|
  {
    && |rows'| == |rows| && a == Shown(rows'[k])
    && (forall i :: 0 <= i < |rows| && i != k ==> rows'[i] == rows[i])
    && if rows[k].status == Deleted || rows[k].status == Rejected then Asks(rows'[k], rows[k].id, op.actor, op.target)
       else rows'[k] == rows[k]
  }

  /** Main result 4: a request to oneself or to nobody changes nothing; otherwise it revives a closed row between the
      two as the actor's pending request, shows an open one, or adds a pending row where there is none. */
  lemma RequestChanges(rows: seq<Rel>, op: Op)
    requires Inv(rows) && op.Request?
    ensures var (rows', a) := Step(rows, op);
      if op.target == op.actor then rows' == rows && a == SelfNotAllowed
      else if !op.targetActive then rows' == rows && a == NotFound
      else
        && (forall k: nat :: k < |rows| && Between(rows[k], op.actor, op.target) ==> AskedOn(rows, rows', k, op, a))
        && ((forall i :: 0 <= i < |rows| ==> !Between(rows[i], op.actor, op.target)) ==>
              |rows'| == |rows| + 1 && rows'[..|rows|] == rows && a == Shown(rows'[|rows|])
              && Asks(rows'[|rows|], op.freshId, op.actor, op.target))
  {
    var found := FindBetween(rows, op.actor, op.target);
    forall k: nat | k < |rows| && Between(rows[k], op.actor, op.target) ensures found == Some(k) {}
    hide FindBetween;
  }

  /** Who responds, and with what. */
  function Verdict(op: Op): Status
    requires op.Accept? || op.Reject?
  {
    if op.Accept? then Accepted else Rejected
  }

  /** What a response does to the row it names. */
  ghost predicate RespondedOn(rows: seq<Rel>, rows': seq<Rel>, k: nat, op: Op, a: Answer)
    requires (op.Accept? || op.Reject?) && k < |rows|
  {
    && |rows'| == |rows|
    && (forall i :: 0 <= i < |rows| && i != k ==> rows'[i] == rows[i])
    && (rows[k].addressee != op.actor ==> a == NotFound && rows'[k] == rows[k])
    && (rows[k].addressee == op.actor ==> a == Shown(rows'[k]))
    && (rows[k].addressee == op.actor && rows[k].status == Pending ==> rows'[k] == rows[k].(status := Verdict(op)))
    && (rows[k].addressee == op.actor && rows[k].status != Pending ==> rows'[k] == rows[k])
  }

  /** Main result 5: an acceptance accepts and a rejection rejects the pending row it names, by its addressee only; any
      other row is shown or not found as it is. */
  lemma ResponseChanges(rows: seq<Rel>, op: Op)
    requires Inv(rows) && (op.Accept? || op.Reject?)
    ensures var (rows', a) := Step(rows, op);
      && (forall k: nat :: k < |rows| && rows[k].id == op.rel ==> RespondedOn(rows, rows', k, op, a))
      && ((forall i :: 0 <= i < |rows| ==> rows[i].id != op.rel) ==> rows' == rows && a == NotFound)
  {
    var found := ById(rows, op.rel);
    forall k: nat | k < |rows| && rows[k].id == op.rel ensures found == Some(k) {}
    hide ById;
  }

  /** Two users are contacts exactly when the row between them is accepted. */
  lemma ListedIffAccepted(rows: seq<Rel>, a: UserId, b: UserId)
    requires Inv(rows)
    ensures b in ListContacts(rows, a) <==> exists k: nat :: AcceptedBetween(rows, k, a, b)
  {
    ListedIff(rows, a, b);
    hide ListContacts;
    if i :| 0 <= i < |rows| && Lists(rows[i], a) && Other(rows[i], a) == b {
      assert AcceptedBetween(rows, i, a, b);
    }
    if k: nat :| AcceptedBetween(rows, k, a, b) {
      assert Lists(rows[k], a) && Other(rows[k], a) == b;
    }
  }

  ghost predicate AcceptedBetween(rows: seq<Rel>, k: nat, a: UserId, b: UserId) {
    k < |rows| && Between(rows[k], a, b) && rows[k].status == Accepted
  }

  lemma OnlyRowBetween(rows: seq<Rel>, k: nat, a: UserId, b: UserId)
    requires Inv(rows) && k < |rows| && Between(rows[k], a, b)
    ensures FindBetween(rows, a, b) == Some(k)
    ensures forall i: nat :: i < |rows| && Between(rows[i], a, b) ==> i == k
  {
  }

  /** A removal deletes and marks exactly the accepted row between the two, who are then no contacts. */
  lemma RemovalChanges(rows: seq<Rel>, op: Op)
    requires Inv(rows) && op.DeleteContact?
    ensures var (rows', a) := Step(rows, op);
      && (a == Gone <==> op.user in ListContacts(rows, op.actor))
      && (a != Gone ==> a == NotFound && rows' == rows)
      && (a == Gone ==> op.user !in ListContacts(rows', op.actor))
      && (forall k: nat :: AcceptedBetween(rows, k, op.actor, op.user) ==>
            k < |rows| && rows' == rows[k := rows[k].(status := Deleted, marked := true)])
  {
    hide ListContacts;
    ListedIffAccepted(rows, op.actor, op.user);
    StepKeepsInv(rows, op);
    ListedIffAccepted(Step(rows, op).0, op.actor, op.user);
    var found := FindBetween(rows, op.actor, op.user);
    if found.Some? { OnlyRowBetween(rows, found.value, op.actor, op.user); }
    hide FindBetween, Inv;
    forall k: nat | AcceptedBetween(rows, k, op.actor, op.user) ensures found == Some(k) {}
    if found.Some? && rows[found.value].status == Accepted {
      assert AcceptedBetween(rows, found.value, op.actor, op.user);
    }
  }
}
