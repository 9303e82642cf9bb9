/**
 One realtime connection, from the server's numbering and dedup to the client's dedup and gap
 detection, and the client's reconnect budget.

 Both dedup caches keep their keys in insertion order, so a cache is the sequence of its keys,
 oldest first.
 */
module RealtimeModel {
  type EventId = string

  datatype Kind = Established | Reply | Push
  datatype Message = Message(kind: Kind, id: EventId, sequence: int)

  const MAX_DEDUP_CACHE_SIZE: nat := 1000

  // ---------------------------------------------------------------- dedup caches

  function Without(cache: seq<EventId>, id: EventId): seq<EventId> {
    if cache == [] then []
    else
      var rest, last := cache[..|cache| - 1], cache[|cache| - 1];
      if last == id then Without(rest, id) else Without(rest, id) + [last]
  }

  /** Appends a new key and drops the oldest one when the cache is over its size. */
  function AddNew(cache: seq<EventId>, max: nat, id: EventId): seq<EventId> {
    var grown := cache + [id];
    if |grown| > max then grown[1..] else grown
  }

  /** The server's cache moves a key it already holds to the end. */
  function ServerAdd(cache: seq<EventId>, max: nat, id: EventId): seq<EventId> {
    if id in cache then Without(cache, id) + [id] else AddNew(cache, max, id)
  }

  /** The client's cache leaves a key it already holds where it is. */
  function ClientAdd(cache: seq<EventId>, max: nat, id: EventId): seq<EventId> {
    if id in cache then cache else AddNew(cache, max, id)
  }

  /** The last `n` elements, or all of them. */
  function Last<T>(s: seq<T>, n: nat): seq<T> {
    if |s| <= n then s else s[|s| - n..]
  }

  // ---------------------------------------------------------------- the server's side of a connection

  type ConversationId = nat

  datatype Connection = Connection(
    sequence: nat, cache: seq<EventId>, sent: seq<Message>, subscriptions: set<ConversationId>)

  /** `found` and `permitted`: what the lookups before a subscription say. */
  datatype ClientCommand =
    | Subscribe(conversation: ConversationId, found: bool, permitted: bool)
    | Unsubscribe(conversation: ConversationId)
    | Ping
    | Malformed

  /** A command is answered with one message of its own; a pubsub event is delivered under its id. */
  datatype Input = Command(command: ClientCommand, replyId: EventId) | Event(eventId: EventId)

  function Subscribed(subscriptions: set<ConversationId>, command: ClientCommand): set<ConversationId> {
    match command
    case Subscribe(c, found, permitted) => if found && permitted then subscriptions + {c} else subscriptions
    case Unsubscribe(c) => subscriptions - {c}
    case Ping => subscriptions
    case Malformed => subscriptions
  }

  function Emit(c: Connection, kind: Kind, id: EventId): Connection {
    c.(sequence := c.sequence + 1, sent := c.sent + [Message(kind, id, c.sequence + 1)])
  }

  function Accept(id: EventId): Connection {
    Emit(Connection(0, [], [], {}), Established, id)
  }

  /** An event without an id is sent unconditionally. */
  function Handle(c: Connection, max: nat, input: Input): Connection {
    match input
    case Command(command, id) => Emit(c.(subscriptions := Subscribed(c.subscriptions, command)), Reply, id)
    case Event(id) =>
      if id == "" then Emit(c, Push, id)
      else if id in c.cache then c
      else Emit(c.(cache := ServerAdd(c.cache, max, id)), Push, id)
  }

  function Serve(max: nat, hello: EventId, inputs: seq<Input>): Connection {
    if inputs == [] then Accept(hello)
    else Handle(Serve(max, hello, inputs[..|inputs| - 1]), max, inputs[|inputs| - 1])
  }

  /** The ids of the pushes in a stream, in order. */
  function PushIds(stream: seq<Message>): seq<EventId> {
    if stream == [] then []
    else
      var rest, m := PushIds(stream[..|stream| - 1]), stream[|stream| - 1];
      if m.kind == Push && m.id != "" then rest + [m.id] else rest
  }

  // ---------------------------------------------------------------- the client's side

  datatype Client = Client(cache: seq<EventId>, lastSequence: int)

  /** The client after a message, whether it accepted it, and whether it saw a gap before it. */
  function Receive(c: Client, max: nat, m: Message): (Client, bool, bool) {
    if m.id in c.cache then (c, false, false)
    else
      var cache := ClientAdd(c.cache, max, m.id);
      if m.kind == Established then (Client(cache, m.sequence), true, false)
      else if m.sequence > 0 then
        (Client(cache, m.sequence), true, c.lastSequence > 0 && m.sequence > c.lastSequence + 1)
      else (Client(cache, c.lastSequence), true, false)
  }

  function ReceiveAll(c: Client, max: nat, stream: seq<Message>): Client {
    if stream == [] then c
    else Receive(ReceiveAll(c, max, stream[..|stream| - 1]), max, stream[|stream| - 1]).0
  }

  predicate Accepts(c: Client, max: nat, stream: seq<Message>, i: nat)
    requires i < |stream|
  {
    Receive(ReceiveAll(c, max, stream[..i]), max, stream[i]).1
  }

  predicate FlagsGap(c: Client, max: nat, stream: seq<Message>, i: nat)
    requires i < |stream|
  {
    Receive(ReceiveAll(c, max, stream[..i]), max, stream[i]).2
  }
}

/** What the two ends of a connection guarantee together. */
module RealtimeTheorems {
  import opened RealtimeModel

  // ---------------------------------------------------------------- the server's stream

  ghost predicate Distinct<T>(s: seq<T>) {
    forall i, j :: 0 <= i < j < |s| ==> s[i] != s[j]
  }

  ghost predicate ServerInv(c: Connection, max: nat) {
    && c.sequence == |c.sent| > 0
    && (forall i :: 0 <= i < |c.sent| ==> c.sent[i].sequence == i + 1)
    && (forall i :: 0 <= i < |c.sent| ==> (c.sent[i].kind == Established <==> i == 0))
    && c.cache == Last(PushIds(c.sent), max)
    && Distinct(c.cache)
  }

  lemma PushIdsAppend(stream: seq<Message>, m: Message)
    ensures PushIds(stream + [m]) == if m.kind == Push && m.id != "" then PushIds(stream) + [m.id] else PushIds(stream)
  {
    assert (stream + [m])[..|stream|] == stream;
  }

  lemma LastAppend<T>(s: seq<T>, n: nat, x: T)
    ensures Last(s + [x], n) == if |s| < n then Last(s, n) + [x] else (Last(s, n) + [x])[1..]
  {
  }

  lemma EmitKeepsInv(c: Connection, max: nat, kind: Kind, id: EventId, cache: seq<EventId>)
    requires ServerInv(c, max) && kind != Established
    requires cache == if kind == Push && id != "" then AddNew(c.cache, max, id) else c.cache
    requires kind == Push && id != "" ==> id !in c.cache
    ensures ServerInv(Emit(c.(cache := cache), kind, id), max)
  {
    PushIdsAppend(c.sent, Message(kind, id, c.sequence + 1));
    LastAppend(PushIds(c.sent), max, id);
    hide PushIds;
  }

  lemma HandleKeepsInv(c: Connection, max: nat, input: Input)
    requires ServerInv(c, max)
    ensures ServerInv(Handle(c, max, input), max)
  {
    match input
    case Command(command, id) =>
      var c' := c.(subscriptions := Subscribed(c.subscriptions, command));
      assert ServerInv(c', max);
      EmitKeepsInv(c', max, Reply, id, c.cache);
    case Event(id) =>
      if id == "" { EmitKeepsInv(c, max, Push, id, c.cache); }
      else if id !in c.cache { EmitKeepsInv(c, max, Push, id, AddNew(c.cache, max, id)); }
  }

  /** Main result 1: over any interleaving the stream is numbered 1, 2, 3, ... and the cache is its last pushed ids. */
  lemma {:induction false} StreamIsNumbered(max: nat, hello: EventId, inputs: seq<Input>)
    ensures ServerInv(Serve(max, hello, inputs), max)
  {
    if inputs == [] {
      PushIdsAppend([], Message(Established, hello, 1));
      assert [] + [Message(Established, hello, 1)] == [Message(Established, hello, 1)];
    } else {
      StreamIsNumbered(max, hello, inputs[..|inputs| - 1]);
      HandleKeepsInv(Serve(max, hello, inputs[..|inputs| - 1]), max, inputs[|inputs| - 1]);
    }
  }

  /** The pushed ids of a server stream never repeat within `max` of each other. */
  ghost predicate SpacedOut(ids: seq<EventId>, max: nat) {
    forall i, j :: 0 <= i < j < |ids| && j - i <= max ==> ids[i] != ids[j]
  }

  lemma SpacedAppend(ids: seq<EventId>, max: nat, id: EventId)
    requires SpacedOut(ids, max) && id !in Last(ids, max)
    ensures SpacedOut(ids + [id], max)
  {
    forall i | 0 <= i < |ids| && |ids| - i <= max ensures ids[i] in Last(ids, max) {
      assert Last(ids, max)[i - (|ids| - |Last(ids, max)|)] == ids[i];
    }
  }

  lemma HandleKeepsSpacing(c: Connection, max: nat, input: Input)
    requires ServerInv(c, max) && SpacedOut(PushIds(c.sent), max)
    ensures SpacedOut(PushIds(Handle(c, max, input).sent), max)
  {
    hide SpacedOut, PushIds;
    match input
    case Command(_, id) => PushIdsAppend(c.sent, Message(Reply, id, c.sequence + 1));
    case Event(id) =>
      if id == "" || id !in c.cache {
        PushIdsAppend(c.sent, Message(Push, id, c.sequence + 1));
        if id != "" { SpacedAppend(PushIds(c.sent), max, id); }
      }
  }

  /** Main result 2: an event id is sent again only after `max` other pushed ids, each different from it. */
  lemma {:induction false} SentOncePerHorizon(max: nat, hello: EventId, inputs: seq<Input>)
    ensures SpacedOut(PushIds(Serve(max, hello, inputs).sent), max)
  {
    if inputs == [] {
      PushIdsAppend([], Message(Established, hello, 1));
      assert [] + [Message(Established, hello, 1)] == [Message(Established, hello, 1)];
    } else {
      SentOncePerHorizon(max, hello, inputs[..|inputs| - 1]);
      StreamIsNumbered(max, hello, inputs[..|inputs| - 1]);
      HandleKeepsSpacing(Serve(max, hello, inputs[..|inputs| - 1]), max, inputs[|inputs| - 1]);
    }
  }

  /** The server only adds an id it does not hold, so its move-to-end and the client's no-op never differ. */
  lemma CachesAgreeOnSendPath(c: Connection, max: nat, id: EventId)
    requires id != "" && Handle(c, max, Event(id)) != c
    ensures Handle(c, max, Event(id)).cache == ClientAdd(c.cache, max, id) == AddNew(c.cache, max, id)
  {
  }

  // ---------------------------------------------------------------- the client's cache

  /** Every id the client has ever added: those it started with, then those of the messages it accepted. */
  function Added(c: Client, max: nat, stream: seq<Message>): seq<EventId> {
    if stream == [] then c.cache
    else
      var rest, m := stream[..|stream| - 1], stream[|stream| - 1];
      if Accepts(c, max, stream, |stream| - 1) then Added(c, max, rest) + [m.id] else Added(c, max, rest)
  }

  lemma LastIsDistinct(ids: seq<EventId>, max: nat)
    requires SpacedOut(ids, max)
    ensures Distinct(Last(ids, max))
  {
    var k := |ids| - |Last(ids, max)|;
    forall i, j | 0 <= i < j < |Last(ids, max)| ensures Last(ids, max)[i] != Last(ids, max)[j] {
      assert ids[k + i] != ids[k + j];
    }
  }

  /** Main result 3: whatever the stream, the client's cache is exactly the last `max` of the ids it ever added, and
      these never repeat within `max` of each other. */
  lemma {:induction false} ClientCacheIsLastAdded(c: Client, max: nat, stream: seq<Message>)
    requires |c.cache| <= max && Distinct(c.cache)
    ensures ReceiveAll(c, max, stream).cache == Last(Added(c, max, stream), max)
    ensures SpacedOut(Added(c, max, stream), max) && Distinct(ReceiveAll(c, max, stream).cache)
  {
    if stream != [] {
      var rest, m := stream[..|stream| - 1], stream[|stream| - 1];
      ClientCacheIsLastAdded(c, max, rest);
      LastAppend(Added(c, max, rest), max, m.id);
      if m.id !in ReceiveAll(c, max, rest).cache { SpacedAppend(Added(c, max, rest), max, m.id); }
    }
    hide Receive, Accepts, Added;
    LastIsDistinct(Added(c, max, stream), max);
  }

  /** Main result 4: so the client accepts a message exactly when its id is not among the last `max` ids it added,
      which is what a memory of every id ever added says of any id until `max` newer ones have come. */
  lemma AcceptsIffNotRecent(c: Client, max: nat, stream: seq<Message>, i: nat)
    requires |c.cache| <= max && Distinct(c.cache) && i < |stream|
    ensures var added := Added(c, max, stream[..i]);
      && (Accepts(c, max, stream, i) <==> stream[i].id !in Last(added, max))
      && (forall p :: 0 <= p < |added| && added[p] == stream[i].id && |added| - p <= max ==>
            !Accepts(c, max, stream, i))
      && (stream[i].id !in added ==> Accepts(c, max, stream, i))
  {
    var added := Added(c, max, stream[..i]);
    ClientCacheIsLastAdded(c, max, stream[..i]);
    hide Added, ReceiveAll, SpacedOut;
    assert forall x :: x in Last(added, max) ==> x in added;
    forall p | 0 <= p < |added| && added[p] == stream[i].id && |added| - p <= max ensures added[p] in Last(added, max) {
      RecentIsCached(added, max, added[p], |added| - p);
    }
  }

  // ---------------------------------------------------------------- nothing lost

  /** A push among the last messages of a stream is among the last pushes. */
  lemma {:induction false} RecentPushIsRecentId(stream: seq<Message>, i: nat)
    requires i < |stream| && stream[i].kind == Push && stream[i].id != ""
    ensures var ids := PushIds(stream);
      exists p :: 0 <= p < |ids| && ids[p] == stream[i].id && |ids| - p <= |stream| - i
  {
    var rest, m := stream[..|stream| - 1], stream[|stream| - 1];
    assert stream == rest + [m];
    PushIdsAppend(rest, m);
    if i == |stream| - 1 {
      assert PushIds(stream)[|PushIds(rest)|] == m.id;
    } else {
      RecentPushIsRecentId(rest, i);
      var p :| 0 <= p < |PushIds(rest)| && PushIds(rest)[p] == stream[i].id && |PushIds(rest)| - p <= |rest| - i;
      assert PushIds(stream)[p] == stream[i].id;
    }
  }

  /** Ids of replies and of the greeting are drawn fresh, and pushed events carry one. */
  ghost predicate FreshIds(hello: EventId, inputs: seq<Input>) {
    && (forall i :: 0 <= i < |inputs| ==> InputId(inputs[i]) != hello && InputId(inputs[i]) != "")
    && (forall i, j :: 0 <= i < |inputs| && 0 <= j < |inputs| && i != j && inputs[i].Command? ==>
          InputId(inputs[i]) != InputId(inputs[j]))
  }

  function InputId(input: Input): EventId {
    match input
    case Command(_, id) => id
    case Event(id) => id
  }

  ghost function Ids(stream: seq<Message>): (r: seq<EventId>)
    ensures |r| == |stream| && forall i :: 0 <= i < |r| ==> r[i] == stream[i].id
  {
    seq(|stream|, i requires 0 <= i < |stream| => stream[i].id)
  }

  /** A client that has accepted a whole stream on top of what it remembered from before. */
  ghost predicate InStep(c: Client, max: nat, known: seq<EventId>, sent: seq<Message>) {
    c.cache == Last(known + Ids(sent), max) && (sent != [] ==> c.lastSequence == |sent|)
  }

  lemma StayInStep(c: Client, max: nat, known: seq<EventId>, sent: seq<Message>, m: Message)
    requires InStep(c, max, known, sent) && m.id !in c.cache && m.sequence == |sent| + 1
    requires m.kind == Established <==> sent == []
    ensures var (c', ok, gap) := Receive(c, max, m);
      InStep(c', max, known, sent + [m]) && ok && !gap
  {
    assert known + Ids(sent + [m]) == (known + Ids(sent)) + [m.id];
    LastAppend(known + Ids(sent), max, m.id);
  }

  ghost predicate FromInput(inputs: seq<Input>, n: nat, m: Message)
    requires n <= |inputs|
  {
    exists i :: 0 <= i < n && InputId(inputs[i]) == m.id && (inputs[i].Command? <==> m.kind == Reply)
  }

  ghost predicate Traced(hello: EventId, inputs: seq<Input>, n: nat, m: Message)
    requires n <= |inputs|
  {
    if m.kind == Established then m.id == hello else FromInput(inputs, n, m)
  }

  ghost predicate AllTraced(hello: EventId, inputs: seq<Input>, n: nat, sent: seq<Message>)
    requires n <= |inputs|
  {
    forall k :: 0 <= k < |sent| ==> Traced(hello, inputs, n, sent[k])
  }

  lemma TracedLater(hello: EventId, inputs: seq<Input>, n: nat, m: Message)
    requires 0 < n <= |inputs| && Traced(hello, inputs, n - 1, m)
    ensures Traced(hello, inputs, n, m)
  {
    if m.kind != Established {
      var i :| 0 <= i < n - 1 && InputId(inputs[i]) == m.id && (inputs[i].Command? <==> m.kind == Reply);
    }
  }

  lemma ServeOneMore(max: nat, hello: EventId, inputs: seq<Input>, n: nat)
    requires n < |inputs|
    ensures Serve(max, hello, inputs[..n + 1]) == Handle(Serve(max, hello, inputs[..n]), max, inputs[n])
  {
    assert inputs[..n + 1][..n] == inputs[..n];
  }

  /** What handling one input sends, if anything. */
  lemma HandleSends(c: Connection, max: nat, input: Input)
    requires c.sequence == |c.sent| && c.sent != []
    ensures var c' := Handle(c, max, input);
      c' != c ==>
        && c'.sent == c.sent + [c'.sent[|c.sent|]]
        && c'.sent[|c.sent|].sequence == |c.sent| + 1
        && c'.sent[|c.sent|].id == InputId(input)
        && c'.sent[|c.sent|].kind == (if input.Command? then Reply else Push)
        && (input.Event? && InputId(input) != "" ==> InputId(input) !in c.cache)
  {
  }

  /** The ids already sent come from the inputs already handled. */
  lemma {:induction false} SentFromInputs(max: nat, hello: EventId, inputs: seq<Input>, n: nat)
    requires n <= |inputs|
    ensures AllTraced(hello, inputs, n, Serve(max, hello, inputs[..n]).sent)
  {
    hide PushIds, Last;
    if n > 0 {
      SentFromInputs(max, hello, inputs, n - 1);
      ServeOneMore(max, hello, inputs, n - 1);
      StreamIsNumbered(max, hello, inputs[..n - 1]);
      hide Serve, Handle, Traced;
      var before, after := Serve(max, hello, inputs[..n - 1]), Serve(max, hello, inputs[..n]);
      HandleSends(before, max, inputs[n - 1]);
      forall k | 0 <= k < |after.sent| ensures Traced(hello, inputs, n, after.sent[k]) {
        if k < |before.sent| { TracedLater(hello, inputs, n, before.sent[k]); }
        else { TracedNow(hello, inputs, n, after.sent[k]); }
      }
    }
  }

  lemma TracedNow(hello: EventId, inputs: seq<Input>, n: nat, m: Message)
    requires 0 < n <= |inputs| && m.id == InputId(inputs[n - 1])
    requires m.kind == if inputs[n - 1].Command? then Reply else Push
    ensures Traced(hello, inputs, n, m)
  {
  }

  /** An element among the last `k` of a concatenation is in the first part or among the last `k` of the second. */
  lemma LastOfConcat(known: seq<EventId>, ids: seq<EventId>, k: nat, id: EventId)
    requires id in Last(known + ids, k) && id !in known
    ensures exists i :: 0 <= i < |ids| && ids[i] == id && |ids| - i <= k
  {
    var all := known + ids;
    var q :| 0 <= q < |Last(all, k)| && Last(all, k)[q] == id;
    var i := q + |all| - |Last(all, k)| - |known|;
    if i >= 0 { assert ids[i] == id; }
  }

  /** What the server sends next is new to a client that kept up, if its cache is no larger than the server's. */
  lemma NextIsNew(max: nat, clientMax: nat, known: seq<EventId>, hello: EventId, inputs: seq<Input>, n: nat)
    requires n < |inputs| && clientMax <= max && FreshIds(hello, inputs)
    requires InputId(inputs[n]) !in known
    ensures var c := Serve(max, hello, inputs[..n]);
      Handle(c, max, inputs[n]) != c ==> InputId(inputs[n]) !in Last(known + Ids(c.sent), clientMax)
  {
    var c, id := Serve(max, hello, inputs[..n]), InputId(inputs[n]);
    SentFromInputs(max, hello, inputs, n);
    assert forall k :: 0 <= k < |c.sent| ==> Traced(hello, inputs, n, c.sent[k]);
    StreamIsNumbered(max, hello, inputs[..n]);
    HandleSends(c, max, inputs[n]);
    if Handle(c, max, inputs[n]) != c && id in Last(known + Ids(c.sent), clientMax) {
      LastOfConcat(known, Ids(c.sent), clientMax, id);
      var i :| 0 <= i < |c.sent| && Ids(c.sent)[i] == id && |c.sent| - i <= clientMax;
      assert Traced(hello, inputs, n, c.sent[i]);
      RecentPushIsRecentId(c.sent, i);
      RecentIsCached(PushIds(c.sent), max, id, |c.sent| - i);
    }
  }

  lemma RecentIsCached(ids: seq<EventId>, max: nat, id: EventId, k: nat)
    requires k <= max && exists p :: 0 <= p < |ids| && ids[p] == id && |ids| - p <= k
    ensures id in Last(ids, max)
  {
    var p :| 0 <= p < |ids| && ids[p] == id && |ids| - p <= k;
    assert Last(ids, max)[p - (|ids| - |Last(ids, max)|)] == id;
  }

  lemma ReceiveOneMore(c: Client, max: nat, stream: seq<Message>, m: Message)
    ensures ReceiveAll(c, max, stream + [m]) == Receive(ReceiveAll(c, max, stream), max, m).0
    ensures forall i :: 0 <= i < |stream| ==>
      && Accepts(c, max, stream + [m], i) == Accepts(c, max, stream, i)
      && FlagsGap(c, max, stream + [m], i) == FlagsGap(c, max, stream, i)
    ensures Accepts(c, max, stream + [m], |stream|) == Receive(ReceiveAll(c, max, stream), max, m).1
    ensures FlagsGap(c, max, stream + [m], |stream|) == Receive(ReceiveAll(c, max, stream), max, m).2
  {
    assert (stream + [m])[..|stream|] == stream;
    assert forall i :: 0 <= i < |stream| ==> (stream + [m])[..i] == stream[..i];
  }

  /** The client accepted the whole stream and saw no gap in it. */
  ghost predicate KeptUp(client: Client, max: nat, sent: seq<Message>) {
    && InStep(ReceiveAll(client, max, sent), max, client.cache, sent)
    && forall i :: 0 <= i < |sent| ==> Accepts(client, max, sent, i) && !FlagsGap(client, max, sent, i)
  }

  lemma KeepUp(client: Client, max: nat, sent: seq<Message>, m: Message)
    requires KeptUp(client, max, sent)
    requires m.id !in Last(client.cache + Ids(sent), max) && m.sequence == |sent| + 1
    requires m.kind == Established <==> sent == []
    ensures KeptUp(client, max, sent + [m])
  {
    StayInStep(ReceiveAll(client, max, sent), max, client.cache, sent, m);
    ReceiveOneMore(client, max, sent, m);
    hide Receive, ReceiveAll, Accepts, FlagsGap, InStep;
  }

  /** Main result 5: a client that gets everything accepts everything and raises no gap, however often event ids
      repeat. */
  lemma {:induction false} NothingLostNothingFlagged(max: nat, clientMax: nat, client: Client, hello: EventId,
                                                     inputs: seq<Input>, n: nat)
    requires n <= |inputs| && clientMax <= max && FreshIds(hello, inputs)
    requires |client.cache| <= clientMax && hello !in client.cache
    requires forall i :: 0 <= i < |inputs| ==> InputId(inputs[i]) !in client.cache
    ensures KeptUp(client, clientMax, Serve(max, hello, inputs[..n]).sent)
  {
    if n == 0 {
      var m := Message(Established, hello, 1);
      assert Serve(max, hello, inputs[..0]).sent == [] + [m];
      assert client.cache + Ids([]) == client.cache;
      assert KeptUp(client, clientMax, []);
      KeepUp(client, clientMax, [], m);
    } else {
      hide Serve, Handle, KeptUp;
      NothingLostNothingFlagged(max, clientMax, client, hello, inputs, n - 1);
      StreamIsNumbered(max, hello, inputs[..n - 1]);
      NextIsNew(max, clientMax, client.cache, hello, inputs, n - 1);
      ServeOneMore(max, hello, inputs, n - 1);
      var before, after := Serve(max, hello, inputs[..n - 1]), Serve(max, hello, inputs[..n]);
      HandleSends(before, max, inputs[n - 1]);
      if after != before {
        KeepUp(client, clientMax, before.sent, after.sent[|before.sent|]);
      }
    }
  }

  // ---------------------------------------------------------------- a lossy channel

  /** The messages of `sent` at the given positions, in order: what an in-order lossy channel delivers. */
  ghost function Delivered(sent: seq<Message>, at: seq<nat>): (r: seq<Message>)
    requires forall j :: 0 <= j < |at| ==> at[j] < |sent|
    ensures |r| == |at| && forall j :: 0 <= j < |at| ==> r[j] == sent[at[j]]
  {
    seq(|at|, j requires 0 <= j < |at| => sent[at[j]])
  }

  ghost predicate Ascending(at: seq<nat>, bound: nat) {
    && (forall i, j :: 0 <= i < j < |at| ==> at[i] < at[j])
    && (forall i :: 0 <= i < |at| ==> at[i] < bound)
  }

  /** A stream numbered 1, 2, 3, ... that opens with the greeting. */
  ghost predicate Numbered(sent: seq<Message>) {
    && (forall i :: 0 <= i < |sent| ==> sent[i].sequence == i + 1)
    && (forall i :: 0 <= i < |sent| ==> (sent[i].kind == Established <==> i == 0))
  }

  /** One that never repeats an id. */
  ghost predicate NumberedStream(sent: seq<Message>) {
    Numbered(sent) && Distinct(Ids(sent))
  }

  /** The client's number is that of the last delivery it accepted. */
  ghost predicate AtLastAccepted(client: Client, max: nat, sent: seq<Message>, at: seq<nat>, n: nat)
    requires n <= |at| && forall j :: 0 <= j < |at| ==> at[j] < |sent|
  {
    var stream := Delivered(sent, at);
    exists k: nat :: k < n && Accepts(client, max, stream, k)
      && ReceiveAll(client, max, stream[..n]).lastSequence == at[k] + 1
      && forall i: nat :: i < n && Accepts(client, max, stream, i) ==> i <= k
  }

  lemma OneDelivery(client: Client, max: nat, stream: seq<Message>, i: nat)
    requires i < |stream| && stream[i].sequence > 0
    ensures var before, after := ReceiveAll(client, max, stream[..i]), ReceiveAll(client, max, stream[..i + 1]);
      if Accepts(client, max, stream, i) then after.lastSequence == stream[i].sequence else after == before
  {
    assert stream[..i + 1][..i] == stream[..i];
  }

  lemma FirstAccepted(client: Client, max: nat, stream: seq<Message>)
    requires stream != [] && stream[0].id !in client.cache
    ensures Accepts(client, max, stream, 0)
  {
    assert stream[..0] == [];
  }

  lemma {:induction false} NumberFollowsAccepted(client: Client, max: nat, sent: seq<Message>, at: seq<nat>, n: nat)
    requires Numbered(sent) && Ascending(at, |sent|) && 0 < n <= |at| && at[0] == 0
    requires sent[0].id !in client.cache
    ensures AtLastAccepted(client, max, sent, at, n)
  {
    hide Accepts, ReceiveAll, Numbered;
    var stream := Delivered(sent, at);
    assert stream[n - 1].sequence == at[n - 1] + 1 by { SequenceAt(sent, at[n - 1]); }
    OneDelivery(client, max, stream, n - 1);
    if n == 1 {
      FirstAccepted(client, max, stream);
    } else {
      NumberFollowsAccepted(client, max, sent, at, n - 1);
    }
  }

  lemma SequenceAt(sent: seq<Message>, i: nat)
    requires Numbered(sent) && i < |sent|
    ensures sent[i].sequence == i + 1
  {
  }

  /** Main result 6: whatever the ids, once the greeting got through the client flags a gap on a delivery exactly when
      it accepts the message and accepted nothing from right before it. */
  lemma GapIffBehind(client: Client, max: nat, sent: seq<Message>, at: seq<nat>, j: nat)
    requires Numbered(sent) && Ascending(at, |sent|) && j < |at| && at[0] == 0
    requires sent[0].id !in client.cache
    ensures var stream := Delivered(sent, at);
      FlagsGap(client, max, stream, j) <==>
        && j > 0 && Accepts(client, max, stream, j)
        && forall k: nat :: k < j && Accepts(client, max, stream, k) ==> at[k] + 1 < at[j]
  {
    hide Accepts, FlagsGap, ReceiveAll, AtLastAccepted;
    var stream := Delivered(sent, at);
    FlagsByNumber(client, max, stream, j);
    if j > 0 {
      NumberFollowsAccepted(client, max, sent, at, j);
      var k := LastAccepted(client, max, sent, at, j);
      assert forall i: nat :: i < k ==> at[i] < at[k];
      assert stream[j].sequence == at[j] + 1 && at[0] < at[j];
    }
  }

  lemma FlagsByNumber(client: Client, max: nat, stream: seq<Message>, j: nat)
    requires j < |stream| && stream[j].sequence > 0
    ensures var last := ReceiveAll(client, max, stream[..j]).lastSequence;
      FlagsGap(client, max, stream, j) <==>
        && Accepts(client, max, stream, j) && stream[j].kind != Established
        && last > 0 && stream[j].sequence > last + 1
  {
  }

  /** The client takes over this message's number: an accepted greeting, or an accepted message that has one. */
  ghost predicate Numbers(client: Client, max: nat, stream: seq<Message>, i: nat) {
    i < |stream| && Accepts(client, max, stream, i) && (stream[i].kind == Established || stream[i].sequence > 0)
  }

  lemma NumbersInPrefix(client: Client, max: nat, stream: seq<Message>, n: nat)
    requires n <= |stream|
    ensures forall i: nat :: i < n ==> (Numbers(client, max, stream[..n], i) <==> Numbers(client, max, stream, i))
  {
    forall i: nat | i < n
      ensures Numbers(client, max, stream[..n], i) <==> Numbers(client, max, stream, i)
    {
      assert stream[..n][..i] == stream[..i];
    }
  }

  /** `i` is the last message of the stream whose number the client took over. */
  ghost predicate NumberedLast(client: Client, max: nat, stream: seq<Message>, i: nat) {
    Numbers(client, max, stream, i) && forall k: nat :: i < k < |stream| ==> !Numbers(client, max, stream, k)
  }

  lemma NumberOneMore(client: Client, max: nat, stream: seq<Message>, n: nat)
    requires |stream| == n + 1
    ensures ReceiveAll(client, max, stream).lastSequence ==
      if Numbers(client, max, stream, n) then stream[n].sequence
      else ReceiveAll(client, max, stream[..n]).lastSequence
  {
    hide ClientAdd;
  }

  /** On any stream the client stands at the number of the last message it took one from. */
  lemma {:induction false} NumberIsLast(client: Client, max: nat, stream: seq<Message>, i: nat)
    requires NumberedLast(client, max, stream, i)
    ensures i < |stream| && ReceiveAll(client, max, stream).lastSequence == stream[i].sequence
    decreases |stream|
  {
    var n := |stream| - 1;
    NumberOneMore(client, max, stream, n);
    if i < n {
      NumbersInPrefix(client, max, stream, n);
      hide Numbers, ReceiveAll;
      NumberIsLast(client, max, stream[..n], i);
    }
  }

  /** So on any stream, numbered or not, a gap is flagged on an accepted message that is no greeting exactly when the
      number taken over last is positive and its own is not the next. */
  lemma GapOnAnyStream(client: Client, max: nat, stream: seq<Message>, i: nat, j: nat)
    requires j < |stream| && NumberedLast(client, max, stream[..j], i)
    ensures FlagsGap(client, max, stream, j) <==>
      && Accepts(client, max, stream, j) && stream[j].kind != Established
      && stream[i].sequence > 0 && stream[j].sequence > stream[i].sequence + 1
  {
    NumberIsLast(client, max, stream[..j], i);
    hide ReceiveAll, NumberedLast;
  }

  lemma LastAccepted(client: Client, max: nat, sent: seq<Message>, at: seq<nat>, n: nat) returns (k: nat)
    requires n <= |at| && forall j :: 0 <= j < |at| ==> at[j] < |sent|
    requires AtLastAccepted(client, max, sent, at, n)
    ensures var stream := Delivered(sent, at);
      && k < n && Accepts(client, max, stream, k)
      && ReceiveAll(client, max, stream[..n]).lastSequence == at[k] + 1
      && forall i: nat :: i < n && Accepts(client, max, stream, i) ==> i <= k
  {
    hide Accepts, ReceiveAll;
    var stream := Delivered(sent, at);
    k :| k < n && Accepts(client, max, stream, k)
      && ReceiveAll(client, max, stream[..n]).lastSequence == at[k] + 1
      && forall i: nat :: i < n && Accepts(client, max, stream, i) ==> i <= k;
  }

  lemma AddNewIsBounded(cache: seq<EventId>, max: nat, id: EventId)
    ensures forall x :: x in AddNew(cache, max, id) ==> x in cache || x == id
  {
  }

  /** Where the client stands after the deliveries at the given positions. */
  ghost predicate StandsAt(c: Client, sent: seq<Message>, last: nat) {
    c.lastSequence == last + 1 && forall i :: last < i < |sent| ==> sent[i].id !in c.cache
  }

  lemma DeliverOne(c: Client, max: nat, sent: seq<Message>, last: int, k: nat)
    requires NumberedStream(sent) && k < |sent|
    requires (last < 0 && k == 0 && forall i :: 0 <= i < |sent| ==> sent[i].id !in c.cache)
          || (0 <= last < k && StandsAt(c, sent, last))
    ensures var (c', ok, gap) := Receive(c, max, sent[k]);
      StandsAt(c', sent, k) && ok && (gap <==> k > 0 && k > last + 1)
  {
    AddNewIsBounded(c.cache, max, sent[k].id);
    forall i | k < i < |sent| ensures sent[i].id != sent[k].id {
      assert Ids(sent)[k] != Ids(sent)[i];
    }
  }

  /** Every delivery is accepted, and flagged exactly when positions were skipped before it. */
  ghost predicate FlagsExactly(client: Client, max: nat, stream: seq<Message>, at: seq<nat>)
    requires |stream| == |at|
  {
    forall j :: 0 <= j < |at| ==>
      Accepts(client, max, stream, j) && FlagsGap(client, max, stream, j) == Skipped(at, j)
  }

  predicate Skipped(at: seq<nat>, j: nat)
    requires j < |at|
  {
    j > 0 && at[j] > at[j - 1] + 1
  }

  lemma ExactlyOneMore(client: Client, max: nat, stream: seq<Message>, at: seq<nat>, m: Message, k: nat)
    requires |stream| == |at| > 0 && FlagsExactly(client, max, stream, at)
    requires Accepts(client, max, stream + [m], |at|)
    requires FlagsGap(client, max, stream + [m], |at|) <==> k > at[|at| - 1] + 1
    ensures FlagsExactly(client, max, stream + [m], at + [k])
  {
    hide Accepts, FlagsGap;
    ReceiveOneMore(client, max, stream, m);
    forall j | 0 <= j < |at|
      ensures Accepts(client, max, stream + [m], j)
      ensures FlagsGap(client, max, stream + [m], j) == Skipped(at + [k], j)
    {
      assert Accepts(client, max, stream, j);
    }
  }

  lemma {:induction false} AfterDelivery(client: Client, max: nat, sent: seq<Message>, at: seq<nat>)
    requires NumberedStream(sent) && Ascending(at, |sent|) && |at| > 0 && at[0] == 0
    requires forall i :: 0 <= i < |sent| ==> sent[i].id !in client.cache
    ensures StandsAt(ReceiveAll(client, max, Delivered(sent, at)), sent, at[|at| - 1])
    ensures FlagsExactly(client, max, Delivered(sent, at), at)
  {
    hide Receive, ReceiveAll, Accepts, FlagsGap;
    var n := |at| - 1;
    var before := Delivered(sent, at[..n]);
    assert Delivered(sent, at) == before + [sent[at[n]]];
    ReceiveOneMore(client, max, before, sent[at[n]]);
    if n == 0 {
      NothingReceived(client, max);
      DeliverOne(client, max, sent, -1, 0);
    } else {
      AfterDelivery(client, max, sent, at[..n]);
      DeliverOne(ReceiveAll(client, max, before), max, sent, at[n - 1], at[n]);
      ExactlyOneMore(client, max, before, at[..n], sent[at[n]], at[n]);
      assert at[..n] + [at[n]] == at;
    }
  }

  lemma NothingReceived(client: Client, max: nat)
    ensures ReceiveAll(client, max, []) == client
  {
  }

  lemma FlagIffPredecessorLost(client: Client, max: nat, sent: seq<Message>, at: seq<nat>, j: nat)
    requires NumberedStream(sent) && Ascending(at, |sent|) && j < |at| && at[0] == 0
    requires forall i :: 0 <= i < |sent| ==> sent[i].id !in client.cache
    ensures var stream := Delivered(sent, at);
      && Accepts(client, max, stream, j)
      && (FlagsGap(client, max, stream, j) <==> at[j] > 0 && at[j] - 1 !in at)
  {
    hide Accepts, FlagsGap;
    AfterDelivery(client, max, sent, at);
    assert Accepts(client, max, Delivered(sent, at), j);
    if j > 0 {
      assert at[j - 1] < at[j];
      if at[j] == at[j - 1] + 1 {
        assert at[j] - 1 in at;
      } else {
        forall i | 0 <= i < |at| ensures at[i] != at[j] - 1 {
          assert i < j ==> at[i] <= at[j - 1];
        }
      }
    }
  }

  /** Main result 7: across a lossy in-order channel the client flags a gap on a message exactly when
      the message just before it was lost. */
  lemma GapIffLoss(client: Client, clientMax: nat, max: nat, hello: EventId, inputs: seq<Input>, at: seq<nat>, j: nat)
    requires var sent := Serve(max, hello, inputs).sent;
      && Distinct(Ids(sent)) && Ascending(at, |sent|)
      && (forall i :: 0 <= i < |sent| ==> sent[i].id !in client.cache)
    requires j < |at| && at[0] == 0
    ensures var stream := Delivered(Serve(max, hello, inputs).sent, at);
      && Accepts(client, clientMax, stream, j)
      && (FlagsGap(client, clientMax, stream, j) <==> at[j] > 0 && at[j] - 1 !in at)
  {
    hide Serve, Accepts, FlagsGap, PushIds, Last, Delivered;
    StreamIsNumbered(max, hello, inputs);
    FlagIffPredecessorLost(client, clientMax, Serve(max, hello, inputs).sent, at, j);
  }

  // ---------------------------------------------------------------- what each input adds

  /** The stream grew by exactly this message, under the next number. */
  ghost predicate Grew(before: Connection, after: Connection, kind: Kind, id: EventId) {
    after.sent == before.sent + [Message(kind, id, |before.sent| + 1)]
  }

  /** Main result 8: a pushed event adds exactly one push, under its id and the next number, if and only if it has no id
      or its id is not among the last `max` pushed; otherwise nothing is sent. What is subscribed makes no difference
      and does not change. */
  lemma PushedIff(max: nat, hello: EventId, inputs: seq<Input>, id: EventId)
    ensures var before, after := Serve(max, hello, inputs), Serve(max, hello, inputs + [Event(id)]);
      && (if id == "" || id !in Last(PushIds(before.sent), max)
          then Grew(before, after, Push, id) else after.sent == before.sent)
      && after.subscriptions == before.subscriptions
  {
    assert (inputs + [Event(id)])[..|inputs|] == inputs;
    StreamIsNumbered(max, hello, inputs);
    hide PushIds;
  }

  /** Main result 9: a command adds exactly one reply, under its own id and the next number. It subscribes to its
      conversation if that was found and permitted, unsubscribes on request, and changes no other subscription. */
  lemma CommandAnswered(max: nat, hello: EventId, inputs: seq<Input>, command: ClientCommand, id: EventId)
    ensures var before, after := Serve(max, hello, inputs), Serve(max, hello, inputs + [Command(command, id)]);
      && Grew(before, after, Reply, id) && after.cache == before.cache
      && forall c :: c in after.subscriptions <==>
           (if command == Subscribe(c, true, true) then true
            else if command == Unsubscribe(c) then false
            else c in before.subscriptions)
  {
    assert (inputs + [Command(command, id)])[..|inputs|] == inputs;
    StreamIsNumbered(max, hello, inputs);
  }
}
