/** The connection manager's objects and the browser client, updating their fields. */
module RealtimeObjects {
  import opened RealtimeModel
  import R = ReconnectModel

  class EventDedupCache {
    const maxSize: nat
    var cache: seq<EventId>

    constructor (maxSize: nat)
      ensures this.maxSize == maxSize && cache == []
    {
      this.maxSize, cache := maxSize, [];
    }

    function Seen(id: EventId): bool
      reads this
    {
      id in cache
    }

    method Add(id: EventId)
      modifies this
      ensures cache == ServerAdd(old(cache), maxSize, id)
    {
      if id in cache {
        cache := Without(cache, id) + [id];
        return;
      }
      cache := cache + [id];
      if |cache| > maxSize { cache := cache[1..]; }
    }

    method Clear()
      modifies this
      ensures cache == []
    {
      cache := [];
    }
  }

  /** Per-connection state; `sent` is what went out on its websocket. */
  class ConnectionInfo {
    var sequence: nat
    const dedupCache: EventDedupCache
    var sent: seq<Message>
    var subscriptions: set<ConversationId>

    function Value(): Connection
      reads this, dedupCache
    {
      Connection(sequence, dedupCache.cache, sent, subscriptions)
    }

    constructor ()
      ensures fresh(dedupCache) && dedupCache.maxSize == MAX_DEDUP_CACHE_SIZE
      ensures Value() == Connection(0, [], [], {})
    {
      sequence, sent, subscriptions := 0, [], {};
      dedupCache := new EventDedupCache(MAX_DEDUP_CACHE_SIZE);
    }

    method NextSequence() returns (n: nat)
      modifies this`sequence
      ensures sequence == old(sequence) + 1 == n
    {
      sequence := sequence + 1;
      n := sequence;
    }

    /** Numbers a message and puts it on the wire, if the wire still takes it. */
    method Send(kind: Kind, id: EventId, wireOk: bool)
      modifies this
      ensures wireOk ==> Value() == Emit(old(Value()), kind, id)
      ensures !wireOk ==> Value() == old(Value()).(sequence := old(sequence) + 1)
    {
      var n := NextSequence();
      if wireOk { sent := sent + [Message(kind, id, n)]; }
    }
  }

  /** The part of `send_event_to_connection` that touches one connection. */
  method Deliver(info: ConnectionInfo, eventId: EventId, wireOk: bool) returns (broken: bool)
    requires info.dedupCache.maxSize == MAX_DEDUP_CACHE_SIZE
    modifies info, info.dedupCache
    ensures var after := Handle(old(info.Value()), MAX_DEDUP_CACHE_SIZE, Event(eventId));
      && (broken <==> !wireOk && after != old(info.Value()))
      && (!broken ==> info.Value() == after)
  {
    if eventId != "" && info.dedupCache.Seen(eventId) { return false; }
    if eventId != "" { info.dedupCache.Add(eventId); }
    info.Send(Push, eventId, wireOk);
    broken := !wireOk;
  }

  class ConnectionManager {
    var connections: map<string, ConnectionInfo>

    /** No two connections share state. */
    ghost predicate Valid()
      reads this, connections.Values
    {
      && (forall k :: k in connections ==> connections[k].dedupCache.maxSize == MAX_DEDUP_CACHE_SIZE)
      && (forall j, k :: j in connections && k in connections && j != k ==>
            connections[j] != connections[k] && connections[j].dedupCache != connections[k].dedupCache)
    }

    ghost function Caches(): set<EventDedupCache>
      reads this, connections.Values
    {
      set k | k in connections :: connections[k].dedupCache
    }

    ghost function Streams(): map<string, Connection>
      reads this, connections.Values, Caches()
    {
      map k | k in connections :: connections[k].Value()
    }

    constructor ()
      ensures Valid() && Streams() == map[]
    {
      connections := map[];
    }

    /** Accepts a websocket under a fresh connection id and greets it. A greeting that cannot be sent leaves the
        connection registered, its first number spent. */
    method Connect(connectionId: string, hello: EventId, wireOk: bool) returns (info: ConnectionInfo)
      requires Valid() && connectionId !in connections
      modifies this
      ensures Valid() && fresh(info)
      ensures Streams() == old(Streams())[connectionId := if wireOk then Accept(hello) else Connection(1, [], [], {})]
    {
      info := new ConnectionInfo();
      connections := connections[connectionId := info];
      info.Send(Established, hello, wireOk);
    }

    method Disconnect(connectionId: string)
      requires Valid()
      modifies this
      ensures Valid() && Streams() == old(Streams()) - {connectionId}
    {
      connections := connections - {connectionId};
    }

    /** When one connection changed, the streams changed for it only. */
    twostate lemma OneChanged(connectionId: string)
      requires old(Valid()) && connections == old(connections) && connectionId in connections
      requires forall k :: k in connections && k != connectionId ==>
        unchanged(connections[k]) && unchanged(connections[k].dedupCache)
      ensures Valid() && Streams() == old(Streams())[connectionId := connections[connectionId].Value()]
    {
    }

    /** Answers one client command; a broken wire ends the connection. */
    method Answer(connectionId: string, command: ClientCommand, replyId: EventId, wireOk: bool)
      requires Valid() && connectionId in connections
      modifies this, connections.Values
      ensures Valid()
      ensures Streams() == if wireOk
        then old(Streams())[connectionId :=
               Handle(old(Streams())[connectionId], MAX_DEDUP_CACHE_SIZE, Command(command, replyId))]
        else old(Streams()) - {connectionId}
    {
      hide Handle;
      Reply(connections[connectionId], command, replyId, wireOk);
      OneChanged(connectionId);
      if !wireOk { Disconnect(connectionId); }
    }

    /** The subscription handlers: an error, or the change and its confirmation. */
    static method Reply(info: ConnectionInfo, command: ClientCommand, replyId: EventId, wireOk: bool)
      modifies info
      ensures wireOk ==>
        info.Value() == Handle(old(info.Value()), MAX_DEDUP_CACHE_SIZE, Command(command, replyId))
    {
      match command {
        case Subscribe(c, found, permitted) =>
          if found && permitted { info.subscriptions := info.subscriptions + {c}; }
        case Unsubscribe(c) => info.subscriptions := info.subscriptions - {c};
        case _ =>
      }
      info.Send(Kind.Reply, replyId, wireOk);
    }

    method SendEventToConnection(connectionId: string, eventId: EventId, wireOk: bool)
      requires Valid()
      modifies this, connections.Values, Caches()
      ensures Valid()
      ensures connectionId !in old(connections) ==> Streams() == old(Streams())
      ensures connectionId in old(connections) ==>
        var before := old(Streams())[connectionId];
        var after := Handle(before, MAX_DEDUP_CACHE_SIZE, Event(eventId));
        Streams() == if wireOk || after == before then old(Streams())[connectionId := after]
                     else old(Streams()) - {connectionId}
    {
      hide Handle;
      if connectionId !in connections { return; }
      var broken := Deliver(connections[connectionId], eventId, wireOk);
      OneChanged(connectionId);
      if broken { Disconnect(connectionId); }
    }
  }

  /** What arrives on the socket: something that is no envelope, or a server event. `refillable`: the event names a
      conversation and a backfill function is set. */
  datatype Incoming = NotAnEnvelope | Envelope(message: Message, refillable: bool)

  class RealtimeClient {
    var cache: seq<EventId>
    var lastSequence: int
    var state: R.WsState
    var failCount: nat
    var delays: seq<real>
    var missedPongs: nat
    var heartbeat: bool
    var subscriptions: seq<string>
    var requested: seq<string>
    var backfills: nat

    function Receiver(): Client
      reads this
    {
      Client(cache, lastSequence)
    }

    function Link(): R.Link
      reads this
    {
      R.Link(state, failCount, delays)
    }

    constructor ()
      ensures Receiver() == Client([], 0) && Link() == R.START && missedPongs == 0 && backfills == 0
      ensures subscriptions == [] && requested == [] && !heartbeat
    {
      cache, lastSequence, state, failCount, delays := [], 0, R.Idle, 0, [];
      missedPongs, heartbeat, subscriptions, requested, backfills := 0, false, [], [], 0;
    }

    /** Handles what arrived; a gap triggers a backfill, and an accepted event shows that the connection is alive. */
    method HandleMessage(raw: Incoming) returns (forwarded: bool, gap: bool)
      modifies `cache, `lastSequence, `missedPongs, `backfills
      ensures raw.NotAnEnvelope? ==> !forwarded && !gap && Receiver() == old(Receiver())
      ensures raw.Envelope? ==>
        (Receiver(), forwarded, gap) == Receive(old(Receiver()), MAX_DEDUP_CACHE_SIZE, raw.message)
      ensures missedPongs == (if forwarded then 0 else old(missedPongs))
      ensures backfills == old(backfills) + (if gap && raw.refillable then 1 else 0)
    {
      forwarded, gap := false, false;
      if raw.NotAnEnvelope? { return; }
      var m := raw.message;
      if m.id in cache { return; }
      cache := cache + [m.id];
      if |cache| > MAX_DEDUP_CACHE_SIZE { cache := cache[1..]; }
      missedPongs := 0;
      if m.kind == Established { lastSequence := m.sequence; }
      if m.sequence > 0 && m.kind != Established {
        if lastSequence > 0 && m.sequence > lastSequence + 1 {
          gap := true;
          if raw.refillable { backfills := backfills + 1; }
        }
        lastSequence := m.sequence;
      }
      forwarded := true;
    }

    /** The socket opened: every subscription is asked for again, in order. */
    method HandleOpen()
      modifies `failCount, `missedPongs, `heartbeat, `state, `requested
      ensures Link() == R.Step(old(Link()), R.SocketOpened) && missedPongs == 0 && heartbeat
      ensures requested == old(requested) + subscriptions
    {
      failCount, missedPongs, heartbeat, state := 0, 0, true, R.Open;
      for i := 0 to |subscriptions|
        invariant requested == old(requested) + subscriptions[..i]
        modifies `requested
      {
        requested := requested + [subscriptions[i]];
      }
    }

    method HandleConnectFailure(random: real)
      modifies `failCount, `state, `delays
      ensures Link() == R.Step(old(Link()), R.ConnectFailed(random))
    {
      failCount := failCount + 1;
      if failCount >= R.MAX_CONSECUTIVE_FAILURES {
        state := R.Paused;
        return;
      }
      state := R.Reconnecting;
      delays := delays + [R.Backoff(failCount, random)];
    }

    /** The socket closed: the heartbeat stops, and the close code decides. */
    method HandleClose(manual: bool, code: nat, random: real)
      modifies `failCount, `state, `delays, `heartbeat
      ensures Link() == R.Step(old(Link()), R.SocketClosed(manual, code, random)) && !heartbeat
    {
      heartbeat := false;
      if manual || code == 1000 {
        state := R.Closed;
        return;
      }
      if code == 1008 || code == 4403 {
        state := R.Forbidden;
        return;
      }
      if code == 4406 {
        state := R.Closed;
        return;
      }
      HandleConnectFailure(random);
    }

    method Retry()
      modifies `failCount, `state, `missedPongs
      ensures Link() == R.Step(old(Link()), R.Retried)
      ensures missedPongs == if state == old(state) then old(missedPongs) else 0
    {
      failCount := 0;
      if state == R.Open || state == R.Connecting { return; }
      state, missedPongs := R.Connecting, 0;
    }

    method Reset()
      modifies `cache, `lastSequence, `failCount, `subscriptions
      ensures Receiver() == Client([], 0) && Link() == R.Step(old(Link()), R.WasReset) && subscriptions == []
    {
      cache, lastSequence, failCount, subscriptions := [], 0, 0, [];
    }
  }
}
