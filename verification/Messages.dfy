/**
 The message log: one table for all conversations, numbered per conversation, with idempotent
 creation and soft deletion. Requests are serialised, as the numbering in the code assumes.
 */
module MessagesModel {
  import opened Wrappers

  type ConversationId = nat
  type MessageId = nat
  type UserId = nat

  datatype Message = Message(id: MessageId, conversation: ConversationId, sender: Option<UserId>,
                             key: Option<string>, content: string, deleted: bool, sequence: nat)

  /** The verdicts of the checks that come before anything is stored. */
  datatype Checks = Checks(found: bool, permitted: bool, knownType: bool, sensitive: bool)

  datatype Request =
    | Create(conversation: ConversationId, sender: UserId, key: Option<string>, content: string, checks: Checks,
             freshId: MessageId)
    | CreateSystem(conversation: ConversationId, content: string, checks: Checks, freshId: MessageId)
    | Delete(conversation: ConversationId, message: MessageId, found: bool, reader: bool, allowed: bool)

  datatype Answer =
    | NotFound | Denied | InvalidType | Sensitive | Stored(message: Message) | Known(message: Message) | Deleted

  // ---------------------------------------------------------------- queries

  function MaxSequence(messages: seq<Message>, c: ConversationId): nat {
    if messages == [] then 0
    else
      var rest, m := MaxSequence(messages[..|messages| - 1], c), messages[|messages| - 1];
      if m.conversation == c && m.sequence > rest then m.sequence else rest
  }

  function NextSequence(messages: seq<Message>, c: ConversationId): nat {
    MaxSequence(messages, c) + 1
  }

  predicate HasKey(m: Message, c: ConversationId, key: string) {
    m.conversation == c && m.key == Some(key)
  }

  /** The first message under a key in a conversation, deleted or not. */
  function ByKey(messages: seq<Message>, c: ConversationId, key: string): (r: Option<nat>)
    ensures r.Some? ==> r.value < |messages| && HasKey(messages[r.value], c, key)
    ensures r.Some? ==> forall i :: 0 <= i < r.value ==> !HasKey(messages[i], c, key)
    ensures r.None? ==> forall i :: 0 <= i < |messages| ==> !HasKey(messages[i], c, key)
  {
    if messages == [] then None
    else
      var rest := ByKey(messages[..|messages| - 1], c, key);
      if rest.Some? then rest
      else if HasKey(messages[|messages| - 1], c, key) then Some(|messages| - 1)
      else None
  }

  function ById(messages: seq<Message>, id: MessageId): (r: Option<nat>)
    ensures r.Some? ==> r.value < |messages| && messages[r.value].id == id
    ensures r.None? ==> forall i :: 0 <= i < |messages| ==> messages[i].id != id
  {
    if messages == [] then None
    else if messages[|messages| - 1].id == id then Some(|messages| - 1)
    else ById(messages[..|messages| - 1], id)
  }

  /** An idempotency key that is absent or empty asks for nothing. */
  predicate Keyed(key: Option<string>) {
    key.Some? && key.value != ""
  }

  // ---------------------------------------------------------------- requests

  function Step(messages: seq<Message>, r: Request): (seq<Message>, Answer) {
    match r
    case Create(c, sender, key, content, checks, id) =>
      if !checks.found then (messages, NotFound)
      else if !checks.permitted then (messages, Denied)
      else if !checks.knownType then (messages, InvalidType)
      else if checks.sensitive then (messages, Sensitive)
      else
        var existing := if Keyed(key) then ByKey(messages, c, key.value) else None;
        if existing.Some? then (messages, Known(messages[existing.value]))
        else
          var m := Message(id, c, Some(sender), key, content, false, NextSequence(messages, c));
          (messages + [m], Stored(m))
    case CreateSystem(c, content, checks, id) =>
      if !checks.found then (messages, NotFound)
      else if !checks.knownType then (messages, InvalidType)
      else if checks.sensitive then (messages, Sensitive)
      else
        var m := Message(id, c, None, None, content, false, NextSequence(messages, c));
        (messages + [m], Stored(m))
    case Delete(c, id, found, reader, allowed) =>
      if !found then (messages, NotFound)
      else if !reader then (messages, Denied)
      else
        var k := ById(messages, id);
        if k.None? || messages[k.value].deleted || messages[k.value].conversation != c then (messages, NotFound)
        else if !allowed then (messages, Denied)
        else (messages[k.value := messages[k.value].(deleted := true)], Deleted)
  }

  class MessageLog {
    var messages: seq<Message>

    constructor ()
      ensures messages == []
    {
      messages := [];
    }

    method CreateMessage(c: ConversationId, sender: UserId, key: Option<string>, content: string, checks: Checks,
                         freshId: MessageId) returns (a: Answer)
      modifies this
      ensures (messages, a) == Step(old(messages), Create(c, sender, key, content, checks, freshId))
    {
      if !checks.found { return NotFound; }
      if !checks.permitted { return Denied; }
      if !checks.knownType { return InvalidType; }
      if checks.sensitive { return Sensitive; }
      if Keyed(key) {
        var existing := ByKey(messages, c, key.value);
        if existing.Some? { return Known(messages[existing.value]); }
      }
      var m := Message(freshId, c, Some(sender), key, content, false, NextSequence(messages, c));
      messages := messages + [m];
      a := Stored(m);
    }

    method CreateSystemMessage(c: ConversationId, content: string, checks: Checks, freshId: MessageId)
      returns (a: Answer)
      modifies this
      ensures (messages, a) == Step(old(messages), CreateSystem(c, content, checks, freshId))
    {
      if !checks.found { return NotFound; }
      if !checks.knownType { return InvalidType; }
      if checks.sensitive { return Sensitive; }
      var m := Message(freshId, c, None, None, content, false, NextSequence(messages, c));
      messages := messages + [m];
      a := Stored(m);
    }

    method DeleteMessage(c: ConversationId, id: MessageId, found: bool, reader: bool, allowed: bool) returns (a: Answer)
      modifies this
      ensures (messages, a) == Step(old(messages), Delete(c, id, found, reader, allowed))
    {
      if !found { return NotFound; }
      if !reader { return Denied; }
      var k := ById(messages, id);
      if k.None? || messages[k.value].deleted || messages[k.value].conversation != c { return NotFound; }
      if !allowed { return Denied; }
      messages := messages[k.value := messages[k.value].(deleted := true)];
      a := Deleted;
    }
  }

  // ---------------------------------------------------------------- runs

  datatype Trace = Trace(states: seq<seq<Message>>, requests: seq<Request>, answers: seq<Answer>)

  ghost predicate Link(tr: Trace, i: nat)
    requires i < |tr.requests| == |tr.answers| && |tr.states| == |tr.requests| + 1
  {
    (tr.states[i + 1], tr.answers[i]) == Step(tr.states[i], tr.requests[i])
  }

  /** A run from an empty table, one request at a time. */
  ghost predicate Run(tr: Trace) {
    && |tr.requests| == |tr.answers| && |tr.states| == |tr.requests| + 1
    && tr.states[0] == []
    && forall i :: 0 <= i < |tr.requests| ==> Link(tr, i)
  }

  /** The sequence numbers of one conversation, in creation order. */
  function Sequences(messages: seq<Message>, c: ConversationId): seq<nat> {
    if messages == [] then []
    else
      var rest, m := Sequences(messages[..|messages| - 1], c), messages[|messages| - 1];
      if m.conversation == c then rest + [m.sequence] else rest
  }

  ghost predicate CountsUp(s: seq<nat>) {
    forall i :: 0 <= i < |s| ==> s[i] == i + 1
  }

  ghost predicate KeysUnique(messages: seq<Message>) {
    forall i, j :: 0 <= i < j < |messages| && Keyed(messages[j].key) ==>
      !HasKey(messages[i], messages[j].conversation, messages[j].key.value)
  }

  ghost predicate Inv(messages: seq<Message>) {
    KeysUnique(messages) && forall c :: CountsUp(Sequences(messages, c))
  }

  /** Rows stay where they are; only the deletion mark can be set. */
  ghost predicate Extends(a: seq<Message>, b: seq<Message>) {
    |a| <= |b| && forall i :: 0 <= i < |a| ==> (b[i] == a[i] || b[i] == a[i].(deleted := true))
  }

  lemma SequencesAppend(messages: seq<Message>, m: Message, c: ConversationId)
    ensures Sequences(messages + [m], c)
         == if m.conversation == c then Sequences(messages, c) + [m.sequence] else Sequences(messages, c)
  {
    assert (messages + [m])[..|messages|] == messages;
  }

  lemma {:induction false} SequencesIgnoreDeletion(messages: seq<Message>, k: nat, c: ConversationId)
    requires k < |messages|
    ensures Sequences(messages[k := messages[k].(deleted := true)], c) == Sequences(messages, c)
  {
    var marked := messages[k := messages[k].(deleted := true)];
    var rest := messages[..|messages| - 1];
    if k < |messages| - 1 {
      SequencesIgnoreDeletion(rest, k, c);
      assert marked[..|messages| - 1] == rest[k := rest[k].(deleted := true)];
    } else {
      assert marked[..|messages| - 1] == rest;
    }
  }

  /** In a log that counts up, one more than the maximum is one more than the count. */
  lemma {:induction false} NextIsCount(messages: seq<Message>, c: ConversationId)
    requires CountsUp(Sequences(messages, c))
    ensures NextSequence(messages, c) == |Sequences(messages, c)| + 1
  {
    if messages != [] {
      var rest, m := messages[..|messages| - 1], messages[|messages| - 1];
      var s := Sequences(messages, c);
      assert messages == rest + [m];
      SequencesAppend(rest, m, c);
      assert forall i :: 0 <= i < |Sequences(rest, c)| ==> Sequences(rest, c)[i] == s[i];
      NextIsCount(rest, c);
      if m.conversation == c { assert s[|s| - 1] == m.sequence; }
    }
  }

  lemma AppendKeepsInv(messages: seq<Message>, m: Message)
    requires Inv(messages) && m.sequence == NextSequence(messages, m.conversation)
    requires Keyed(m.key) ==> forall i :: 0 <= i < |messages| ==> !HasKey(messages[i], m.conversation, m.key.value)
    ensures Inv(messages + [m])
  {
    forall c ensures CountsUp(Sequences(messages + [m], c)) {
      SequencesAppend(messages, m, c);
      NextIsCount(messages, c);
    }
  }

  lemma DeleteKeepsInv(messages: seq<Message>, k: nat)
    requires Inv(messages) && k < |messages|
    ensures Inv(messages[k := messages[k].(deleted := true)])
  {
    var marked := messages[k := messages[k].(deleted := true)];
    forall c ensures CountsUp(Sequences(marked, c)) {
      SequencesIgnoreDeletion(messages, k, c);
    }
  }

  lemma StepKeepsInv(messages: seq<Message>, r: Request)
    requires Inv(messages)
    ensures Inv(Step(messages, r).0) && Extends(messages, Step(messages, r).0)
  {
    hide Inv;
    match Step(messages, r).1
    case Stored(m) => AppendKeepsInv(messages, m);
    case Deleted => DeleteKeepsInv(messages, ById(messages, r.message).value);
    case _ =>
  }

  /** Main result 1: in every reachable log each conversation is numbered 1..n in creation order and keys are unique. */
  lemma {:induction false} ReachableInv(tr: Trace, n: nat)
    requires Run(tr) && n < |tr.states|
    ensures Inv(tr.states[n])
  {
    if n > 0 {
      ReachableInv(tr, n - 1);
      assert Link(tr, n - 1);
      StepKeepsInv(tr.states[n - 1], tr.requests[n - 1]);
    }
  }

  /** Main result 2: nothing stored is ever lost, moved or renumbered. */
  lemma {:induction false} RunExtends(tr: Trace, i: nat, j: nat)
    requires Run(tr) && i <= j < |tr.states|
    ensures Extends(tr.states[i], tr.states[j])
    decreases j
  {
    if i < j {
      RunExtends(tr, i, j - 1);
      ReachableInv(tr, j - 1);
      assert Link(tr, j - 1);
      StepKeepsInv(tr.states[j - 1], tr.requests[j - 1]);
    }
  }

  ghost predicate Passes(c: Checks) {
    c.found && c.permitted && c.knownType && !c.sensitive
  }

  lemma KeyFindsItsMessage(messages: seq<Message>, k: nat, key: string)
    requires Inv(messages) && k < |messages| && key != "" && messages[k].key == Some(key)
    ensures ByKey(messages, messages[k].conversation, key) == Some(k)
  {
    assert forall i :: 0 <= i < k ==> !HasKey(messages[i], messages[k].conversation, key);
    assert HasKey(messages[k], messages[k].conversation, key);
  }

  /** Main result 3: once a message is stored under a key, every later creation under that key that passes the
      checks stores nothing and returns that message, whoever asks and even after it was deleted. */
  lemma CreationIsIdempotent(tr: Trace, i: nat, j: nat)
    requires Run(tr) && i < j < |tr.requests|
    requires tr.requests[i].Create? && tr.answers[i].Stored? && Keyed(tr.requests[i].key)
    requires tr.requests[j].Create? && Passes(tr.requests[j].checks)
    requires tr.requests[j].conversation == tr.requests[i].conversation && tr.requests[j].key == tr.requests[i].key
    ensures tr.states[j + 1] == tr.states[j] && tr.answers[j].Known?
    ensures var first, again := tr.answers[i].message, tr.answers[j].message;
      again == first || again == first.(deleted := true)
  {
    var k := |tr.states[i]|;
    assert Link(tr, i) && Link(tr, j);
    assert tr.states[i + 1][k] == tr.answers[i].message;
    RunExtends(tr, i + 1, j);
    ReachableInv(tr, j);
    KeyFindsItsMessage(tr.states[j], k, tr.requests[i].key.value);
  }

  /** Every number is used once: two different messages of a conversation never share one. */
  lemma NumbersAreNotReused(messages: seq<Message>, i: nat, j: nat)
    requires Inv(messages) && i < j < |messages| && messages[i].conversation == messages[j].conversation
    ensures messages[i].sequence < messages[j].sequence <= |Sequences(messages, messages[j].conversation)|
  {
    var c := messages[i].conversation;
    PositionOf(messages, i, c);
    PositionOf(messages, j, c);
    PrefixGrows(messages, i, j, c);
  }

  lemma {:induction false} PositionOf(messages: seq<Message>, i: nat, c: ConversationId)
    requires i < |messages| && messages[i].conversation == c && CountsUp(Sequences(messages, c))
    ensures messages[i].sequence == |Sequences(messages[..i + 1], c)| <= |Sequences(messages, c)|
  {
    var rest, m := messages[..|messages| - 1], messages[|messages| - 1];
    assert messages == rest + [m];
    SequencesAppend(rest, m, c);
    var s := Sequences(messages, c);
    if i == |messages| - 1 {
      assert messages[..i + 1] == messages && s[|s| - 1] == m.sequence;
    } else {
      assert forall p :: 0 <= p < |Sequences(rest, c)| ==> Sequences(rest, c)[p] == s[p];
      PositionOf(rest, i, c);
      assert rest[..i + 1] == messages[..i + 1];
    }
  }

  lemma {:induction false} PrefixGrows(messages: seq<Message>, i: nat, j: nat, c: ConversationId)
    requires i < j < |messages| && messages[j].conversation == c
    ensures |Sequences(messages[..i + 1], c)| < |Sequences(messages[..j + 1], c)|
  {
    assert messages[..j + 1][..j] == messages[..j];
    if i + 1 < j { PrefixAtMost(messages, i + 1, j, c); }
  }

  lemma {:induction false} PrefixAtMost(messages: seq<Message>, i: nat, j: nat, c: ConversationId)
    requires i <= j <= |messages|
    ensures |Sequences(messages[..i], c)| <= |Sequences(messages[..j], c)|
    decreases j
  {
    if i < j {
      PrefixAtMost(messages, i, j - 1, c);
      assert messages[..j][..j - 1] == messages[..j - 1];
    }
  }

  // ---------------------------------------------------------------- what each request stores

  /** Which check fails first, if any. */
  ghost predicate Refused(c: Checks, a: Answer) {
    && (a == NotFound <==> !c.found)
    && (a == Denied <==> c.found && !c.permitted)
    && (a == InvalidType <==> c.found && c.permitted && !c.knownType)
    && (a == Sensitive <==> c.found && c.permitted && c.knownType && c.sensitive)
  }

  /** The log grew by exactly this message. */
  ghost predicate Appended(messages: seq<Message>, messages': seq<Message>, m: Message) {
    |messages'| == |messages| + 1 && messages'[..|messages|] == messages && messages'[|messages|] == m
  }

  /** Main result 4: a creation that fails a check stores nothing and says which; one under a known key returns that
      message; any other stores the sender's content under the next number and returns it. */
  lemma CreationStores(messages: seq<Message>, r: Request)
    requires Inv(messages) && r.Create?
    ensures var (messages', a) := Step(messages, r);
      var known := Keyed(r.key) && exists m :: m in messages && HasKey(m, r.conversation, r.key.value);
      if !Passes(r.checks) then messages' == messages && Refused(r.checks, a)
      else if known then
        messages' == messages && a.Known? && a.message in messages && HasKey(a.message, r.conversation, r.key.value)
      else
        a.Stored? && Appended(messages, messages', a.message)
        && a.message == Message(r.freshId, r.conversation, Some(r.sender), r.key, r.content, false,
             |Sequences(messages, r.conversation)| + 1)
  {
    NextIsCount(messages, r.conversation);
    if Keyed(r.key) {
      if m :| m in messages && HasKey(m, r.conversation, r.key.value) {
        var i :| 0 <= i < |messages| && messages[i] == m;
      }
    }
    hide Sequences, NextSequence;
  }

  /** System messages need no permission and carry neither sender nor key. */
  lemma SystemCreationStores(messages: seq<Message>, r: Request)
    requires Inv(messages) && r.CreateSystem?
    ensures var (messages', a) := Step(messages, r);
      if !Passes(r.checks.(permitted := true)) then messages' == messages && Refused(r.checks.(permitted := true), a)
      else
        a.Stored? && Appended(messages, messages', a.message)
        && a.message == Message(r.freshId, r.conversation, None, None, r.content, false,
             |Sequences(messages, r.conversation)| + 1)
  {
    NextIsCount(messages, r.conversation);
    hide Sequences, NextSequence;
  }

  /** A message of the conversation that is not deleted. */
  ghost predicate Live(messages: seq<Message>, k: nat, c: ConversationId, id: MessageId) {
    k < |messages| && messages[k].id == id && messages[k].conversation == c && !messages[k].deleted
  }

  /** Main result 5: with message ids unique, a deletion marks exactly the live message it names when the conversation
      is found and the actor may read and delete; otherwise it changes nothing. */
  lemma DeletionMarks(messages: seq<Message>, r: Request)
    requires r.Delete?
    requires forall i, j :: 0 <= i < j < |messages| ==> messages[i].id != messages[j].id
    ensures var (messages', a) := Step(messages, r);
      && (a == Deleted <==>
            r.found && r.reader && r.allowed && exists k: nat :: Live(messages, k, r.conversation, r.message))
      && (a == Denied <==>
            r.found && (!r.reader || (!r.allowed && exists k: nat :: Live(messages, k, r.conversation, r.message))))
      && (a != Deleted && a != Denied ==> a == NotFound)
      && (a != Deleted ==> messages' == messages)
      && (a == Deleted ==> forall k: nat :: Live(messages, k, r.conversation, r.message) ==>
            k < |messages| && messages' == messages[k := messages[k].(deleted := true)])
  {
    var k := ById(messages, r.message);
    if k.Some? {
      assert Live(messages, k.value, r.conversation, r.message) <==>
        messages[k.value].conversation == r.conversation && !messages[k.value].deleted;
    }
    hide ById;
  }
}
