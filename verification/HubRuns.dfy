/** What every run of the connection protocol keeps. */
module HubRuns {
  import opened Text
  import opened HubConnections

  /** One critical section of the `agents` lock. A message stands for every message but Hello. */
  datatype Event =
    | Connect(agentId: string, connectionId: string, channel: nat, at: int)
    | Hello(agentId: string, connectionId: string, generation: string, role: Role, mode: ConnectionMode, at: int)
    | Message(agentId: string, connectionId: string, at: int)
    | Disconnect(agentId: string, connectionId: string, expiryCheckAt: Option<int>)

  function AfterEvent(s: Hub, e: Event): Hub {
    match e
    case Connect(agentId, connectionId, channel, at) => AfterReplace(s, agentId, connectionId, channel, at).0
    case Hello(agentId, connectionId, generation, role, mode, at) =>
      AfterHello(s, agentId, connectionId, generation, role, mode, at).0
    case Message(agentId, connectionId, at) => Touched(s, agentId, connectionId, at)
    case Disconnect(agentId, connectionId, expiryCheckAt) => AfterDisconnect(s, agentId, connectionId, expiryCheckAt)
  }

  function AfterEvents(s: Hub, events: seq<Event>): Hub
    decreases |events|
  {
    if events == [] then s else AfterEvents(AfterEvent(s, events[0]), events[1..])
  }

  // ---------------------------------------------------------------- the lease

  predicate Qualifies(connection: Connection) {
    connection.helloReceived && connection.role == Room && connection.mode == CommandCapable
  }

  /** The agent's current connection is this one, greeted as a command-capable Room. */
  predicate IsLiveRoom(s: Hub, agentId: string, connectionId: string) {
    s.IsCurrent(agentId, connectionId) && Qualifies(s.current[agentId])
  }

  predicate LeaseMatches(s: Hub) {
    && (s.activeRoom.Some? ==> IsLiveRoom(s, s.activeRoom.value.agentId, s.activeRoom.value.connectionId))
    && (forall agentId :: agentId in s.current && Qualifies(s.current[agentId]) ==>
          s.activeRoom == Some(ActiveRoom(agentId, s.current[agentId].connectionId)))
  }

  lemma ConnectKeepsLease(s: Hub, agentId: string, connectionId: string, channel: nat, at: int)
    requires LeaseMatches(s)
    ensures LeaseMatches(AfterReplace(s, agentId, connectionId, channel, at).0)
  {
  }

  lemma HelloKeepsLease(s: Hub, agentId: string, connectionId: string, generation: string, role: Role,
                        mode: ConnectionMode, at: int)
    requires LeaseMatches(s)
    ensures LeaseMatches(AfterHello(s, agentId, connectionId, generation, role, mode, at).0)
  {
  }

  lemma TouchKeepsLease(s: Hub, agentId: string, connectionId: string, at: int)
    requires LeaseMatches(s)
    ensures LeaseMatches(Touched(s, agentId, connectionId, at))
  {
  }

  lemma DisconnectKeepsLease(s: Hub, agentId: string, connectionId: string, expiryCheckAt: Option<int>)
    requires LeaseMatches(s)
    ensures LeaseMatches(AfterDisconnect(s, agentId, connectionId, expiryCheckAt))
  {
  }

  lemma EventKeepsLease(s: Hub, e: Event)
    requires LeaseMatches(s)
    ensures LeaseMatches(AfterEvent(s, e))
  {
    hide LeaseMatches, AfterReplace, AfterHello, Touched, AfterDisconnect;
    match e {
      case Connect(agentId, connectionId, channel, at) => ConnectKeepsLease(s, agentId, connectionId, channel, at);
      case Hello(agentId, connectionId, generation, role, mode, at) =>
        HelloKeepsLease(s, agentId, connectionId, generation, role, mode, at);
      case Message(agentId, connectionId, at) => TouchKeepsLease(s, agentId, connectionId, at);
      case Disconnect(agentId, connectionId, expiryCheckAt) =>
        DisconnectKeepsLease(s, agentId, connectionId, expiryCheckAt);
    }
  }

  lemma {:induction false} EventsKeepLease(s: Hub, events: seq<Event>)
    requires LeaseMatches(s)
    ensures LeaseMatches(AfterEvents(s, events))
    decreases |events|
  {
    hide LeaseMatches;
    if events != [] {
      EventKeepsLease(s, events[0]);
      EventsKeepLease(AfterEvent(s, events[0]), events[1..]);
    }
  }

  /** In every run, the active room is (a, c) exactly when a's current connection is c and was
      greeted as a command-capable Room. */
  lemma ActiveRoomIff(events: seq<Event>, agentId: string, connectionId: string)
    ensures var s := AfterEvents(EMPTY_HUB, events);
      s.activeRoom == Some(ActiveRoom(agentId, connectionId)) <==> IsLiveRoom(s, agentId, connectionId)
  {
    assert LeaseMatches(EMPTY_HUB);
    EventsKeepLease(EMPTY_HUB, events);
  }

  /** So there is at most one live Room, and routing to it can only find it or find none:
      the state-conflict and not-ready answers are unreachable. */
  lemma RoomRoutingIsTotal(events: seq<Event>)
    ensures var s := AfterEvents(EMPTY_HUB, events);
      && (forall a, b, c, d :: IsLiveRoom(s, a, c) && IsLiveRoom(s, b, d) ==> a == b && c == d)
      && match RoomTarget(s)
         case Err(e) => e == NotActive && forall a, c :: !IsLiveRoom(s, a, c)
         case Ok(target) => IsLiveRoom(s, target.agentId, target.connectionId)
                            && target.channel == s.current[target.agentId].channel && target.expectedRole == Some(Room)
  {
    assert LeaseMatches(EMPTY_HUB);
    EventsKeepLease(EMPTY_HUB, events);
  }

  // ---------------------------------------------------------------- boot generations

  /** A greeted connection carries the generation on record for its agent; others carry none. */
  predicate GenerationsMatch(s: Hub) {
    forall agentId :: agentId in s.current ==>
      var c := s.current[agentId];
      if c.helloReceived then agentId in s.bootGenerations && c.bootGeneration == Some(s.bootGenerations[agentId])
      else c.bootGeneration == None
  }

  lemma EventKeepsGenerations(s: Hub, e: Event)
    requires GenerationsMatch(s)
    ensures GenerationsMatch(AfterEvent(s, e))
    ensures forall agentId :: agentId in s.bootGenerations ==> agentId in AfterEvent(s, e).bootGenerations
  {
  }

  lemma {:induction false} EventsKeepGenerations(s: Hub, events: seq<Event>)
    requires GenerationsMatch(s)
    ensures GenerationsMatch(AfterEvents(s, events))
    decreases |events|
  {
    hide GenerationsMatch;
    if events != [] {
      EventKeepsGenerations(s, events[0]);
      EventsKeepGenerations(AfterEvent(s, events[0]), events[1..]);
    }
  }

  /** In every run a greeted connection carries the generation on record, and a welcome reports a
      restart exactly when that record was another generation before. */
  lemma GenerationTracksHello(events: seq<Event>, agentId: string, connectionId: string, generation: string,
                              role: Role, mode: ConnectionMode, at: int)
    ensures var s := AfterEvents(EMPTY_HUB, events);
      var (t, r) := AfterHello(s, agentId, connectionId, generation, role, mode, at);
      && GenerationsMatch(s)
      && (r.Welcome? ==>
           && t.bootGenerations == s.bootGenerations[agentId := generation]
           && (r.generationChanged <==> agentId in s.bootGenerations && s.bootGenerations[agentId] != generation)
           && t.current[agentId].bootGeneration == Some(generation))
      && (!r.Welcome? ==> t.bootGenerations == s.bootGenerations && t.activeRoom == s.activeRoom)
  {
    EventsKeepGenerations(EMPTY_HUB, events);
  }

  // ---------------------------------------------------------------- the expiry sweep

  /** More than 60 whole seconds means at least 61 seconds. */
  lemma ExpiredIff(connection: Connection, now: int)
    ensures Expired(connection, now) <==> now - connection.lastSeenAt >= 61 * NANOS_PER_SECOND
  {
    var nanos := now - connection.lastSeenAt;
    if nanos >= 0 {
      assert nanos == (nanos / NANOS_PER_SECOND) * NANOS_PER_SECOND + nanos % NANOS_PER_SECOND;
    }
  }

  /** Concerning `agentId`, only refreshing messages, and sweeps for time `now`. */
  predicate OnlySweeps(events: seq<Event>, agentId: string, now: int) {
    forall i :: 0 <= i < |events| && events[i].agentId == agentId ==>
      match events[i]
      case Message(_, _, at) => now - at < 61 * NANOS_PER_SECOND
      case Hello(_, _, _, _, _, at) => now - at < 61 * NANOS_PER_SECOND
      case Disconnect(_, _, expiryCheckAt) => expiryCheckAt == Some(now)
      case _ => false
  }

  predicate Recent(s: Hub, agentId: string, connectionId: string, now: int) {
    s.IsCurrent(agentId, connectionId) && now - s.current[agentId].lastSeenAt < 61 * NANOS_PER_SECOND
  }

  lemma EventKeepsRecent(s: Hub, e: Event, agentId: string, connectionId: string, now: int)
    requires Recent(s, agentId, connectionId, now) && OnlySweeps([e], agentId, now)
    ensures Recent(AfterEvent(s, e), agentId, connectionId, now)
  {
    ExpiredIff(s.current[agentId], now);
    hide Expired;
    assert [e][0] == e;
    if e.agentId == agentId {
      assert e.Message? || e.Hello? || (e.Disconnect? && e.expiryCheckAt == Some(now));
    }
  }

  /** A recently seen connection survives a sweep, in every interleaving with the other agents'
      events and with its own messages. */
  lemma {:induction false} RecentSurvivesSweep(s: Hub, events: seq<Event>, agentId: string, connectionId: string,
                                               now: int)
    requires Recent(s, agentId, connectionId, now) && OnlySweeps(events, agentId, now)
    ensures Recent(AfterEvents(s, events), agentId, connectionId, now)
    decreases |events|
  {
    hide Recent, AfterEvent;
    if events != [] {
      assert OnlySweeps([events[0]], agentId, now) && OnlySweeps(events[1..], agentId, now);
      hide OnlySweeps;
      EventKeepsRecent(s, events[0], agentId, connectionId, now);
      RecentSurvivesSweep(AfterEvent(s, events[0]), events[1..], agentId, connectionId, now);
    }
  }

  /** A sweep removes a connection exactly when, at that moment, it is still the one in the
      snapshot and was last seen at least 61 seconds before. */
  lemma SweepRemovesIff(s: Hub, agentId: string, connectionId: string, now: int)
    requires agentId in s.current
    ensures agentId !in AfterEvent(s, Disconnect(agentId, connectionId, Some(now))).current <==>
      && s.current[agentId].connectionId == connectionId
      && now - s.current[agentId].lastSeenAt >= 61 * NANOS_PER_SECOND
  {
    ExpiredIff(s.current[agentId], now);
  }

  /** The event makes this the agent's current connection, or is a message on it, a Hello of any
      outcome included, less than 61 seconds before `now`. */
  predicate Renews(s: Hub, e: Event, agentId: string, connectionId: string, now: int) {
    && e.agentId == agentId && e.connectionId == connectionId
    && match e
       case Connect(_, _, _, at) =>
         connectionId != "" && !s.IsCurrent(agentId, connectionId) && now - at < 61 * NANOS_PER_SECOND
       case Message(_, _, at) => s.IsCurrent(agentId, connectionId) && now - at < 61 * NANOS_PER_SECOND
       case Hello(_, _, _, _, _, at) => s.IsCurrent(agentId, connectionId) && now - at < 61 * NANOS_PER_SECOND
       case Disconnect(_, _, _) => false
  }

  /** A connection replaced or refreshed after a sweep took its snapshot is still current when the
      sweep is through, whatever snapshot the sweep had and whatever happens in between. */
  lemma RenewedSurvivesSweep(s: Hub, e: Event, events: seq<Event>, agentId: string, connectionId: string, now: int)
    requires Renews(s, e, agentId, connectionId, now) && OnlySweeps(events, agentId, now)
    ensures Recent(AfterEvents(s, [e] + events), agentId, connectionId, now)
  {
    hide OnlySweeps;
    assert Recent(AfterEvent(s, e), agentId, connectionId, now);
    hide Renews, AfterEvent, Recent;
    assert ([e] + events)[1..] == events;
    RecentSurvivesSweep(AfterEvent(s, e), events, agentId, connectionId, now);
  }
}
