/** What every event does, to whom, and which answer it gets, in any run of the Hub. */
module HubAdmission {
  import opened Text
  import opened HubConnections
  import opened HubRuns

  /** Everything about the other agents, their lease included, is as before. */
  ghost predicate OthersKept(s: Hub, t: Hub, agentId: string) {
    forall other :: other != agentId ==>
      && (other in t.current <==> other in s.current)
      && (other in s.current ==> t.current[other] == s.current[other])
      && (other in t.bootGenerations <==> other in s.bootGenerations)
      && (other in s.bootGenerations ==> t.bootGenerations[other] == s.bootGenerations[other])
      && forall connectionId :: t.activeRoom == Some(ActiveRoom(other, connectionId))
                                <==> s.activeRoom == Some(ActiveRoom(other, connectionId))
  }

  /** A live Room of another agent. */
  ghost predicate RoomElsewhere(s: Hub, agentId: string) {
    exists other, connectionId :: other != agentId && IsLiveRoom(s, other, connectionId)
  }

  lemma ReachedLease(events: seq<Event>)
    ensures LeaseMatches(AfterEvents(EMPTY_HUB, events))
  {
    assert LeaseMatches(EMPTY_HUB);
    EventsKeepLease(EMPTY_HUB, events);
  }

  // ---------------------------------------------------------------- connecting

  /** A connection is refused if and only if its id is empty or already the agent's current one. Else it
      takes the agent's place, not yet greeted and no Room, and the one before it is closed. */
  lemma ConnectOutcome(events: seq<Event>, agentId: string, connectionId: string, channel: nat, at: int)
    ensures var s := AfterEvents(EMPTY_HUB, events);
      var (t, r) := AfterReplace(s, agentId, connectionId, channel, at);
      && (r.InvalidConnectionId? <==> connectionId == "")
      && (r.ConnectionIdInUse? <==> connectionId != "" && s.IsCurrent(agentId, connectionId))
      && (!r.Replaced? ==> t == s)
      && (r.Replaced? ==>
           && r.closed == (if agentId in s.current then Some(s.current[agentId].channel) else None)
           && agentId in t.current
           && t.current[agentId] == Connection(connectionId, channel, at, Normal, CommandCapable, false, None)
           && t.bootGenerations == s.bootGenerations && OthersKept(s, t, agentId)
           && forall id :: t.activeRoom != Some(ActiveRoom(agentId, id)))
  {
    ReachedLease(events);
  }

  // ---------------------------------------------------------------- greeting

  predicate AsksRoom(role: Role, mode: ConnectionMode) {
    role == Room && mode == CommandCapable
  }

  /** From `s` to `t` the agent's connection was greeted with exactly this role, mode and generation, and
      is the Room from then on if and only if it asked to be. */
  ghost predicate Greeted(s: Hub, t: Hub, agentId: string, connectionId: string, generation: string, role: Role,
                          mode: ConnectionMode, at: int)
    requires agentId in s.current
  {
    && agentId in t.current
    && t.current[agentId]
       == Connection(connectionId, s.current[agentId].channel, at, role, mode, true, Some(generation))
    && agentId in t.bootGenerations && t.bootGenerations[agentId] == generation
    && OthersKept(s, t, agentId) && (IsLiveRoom(t, agentId, connectionId) <==> AsksRoom(role, mode))
    && (t.activeRoom == Some(ActiveRoom(agentId, connectionId)) <==> AsksRoom(role, mode))
  }

  /** A Hello is stale if and only if its connection is not the agent's current one, and then changes
      nothing. It is refused if and only if it asks to be a command-capable Room while another agent is
      the Room; a refusal only refreshes the connection. Every other Hello is welcome. */
  lemma HelloOutcome(events: seq<Event>, agentId: string, connectionId: string, generation: string, role: Role,
                     mode: ConnectionMode, at: int)
    ensures var s := AfterEvents(EMPTY_HUB, events);
      var (t, r) := AfterHello(s, agentId, connectionId, generation, role, mode, at);
      if !s.IsCurrent(agentId, connectionId) then r == StaleConnection && t == s
      else if AsksRoom(role, mode) && RoomElsewhere(s, agentId) then
        && r == RoomAlreadyActive(s.current[agentId].channel)
        && t == s.(current := s.current[agentId := s.current[agentId].(lastSeenAt := at)])
      else r.Welcome? && Greeted(s, t, agentId, connectionId, generation, role, mode, at)
  {
    ReachedLease(events);
    var s := AfterEvents(EMPTY_HUB, events);
    LeaseIsElsewhere(s, agentId);
    hide LeaseMatches, RoomElsewhere, AfterEvents, Greeted;
    if s.IsCurrent(agentId, connectionId) {
      if !(AsksRoom(role, mode) && RoomElsewhere(s, agentId)) {
        hide AfterHello;
        IsGreeted(s, agentId, connectionId, generation, role, mode, at);
      }
    }
  }

  lemma IsGreeted(s: Hub, agentId: string, connectionId: string, generation: string, role: Role, mode: ConnectionMode,
                  at: int)
    requires LeaseMatches(s) && s.IsCurrent(agentId, connectionId)
    requires AsksRoom(role, mode) ==> s.activeRoom.None? || s.activeRoom.value.agentId == agentId
    ensures var (t, r) := AfterHello(s, agentId, connectionId, generation, role, mode, at);
      r.Welcome? && Greeted(s, t, agentId, connectionId, generation, role, mode, at)
  {
    var t := AfterHello(s, agentId, connectionId, generation, role, mode, at).0;
    GreetedHub(s, agentId, connectionId, generation, role, mode, at);
    HelloKeepsLease(s, agentId, connectionId, generation, role, mode, at);
    OneLease(t, agentId, connectionId);
    hide LeaseMatches, AfterHello;
    OneAgentChanged(s, t, agentId);
    hide OthersKept;
  }

  lemma GreetedHub(s: Hub, agentId: string, connectionId: string, generation: string, role: Role, mode: ConnectionMode,
                   at: int)
    requires s.IsCurrent(agentId, connectionId)
    requires AsksRoom(role, mode) ==> s.activeRoom.None? || s.activeRoom.value.agentId == agentId
    ensures var (t, r) := AfterHello(s, agentId, connectionId, generation, role, mode, at);
      var c := Connection(connectionId, s.current[agentId].channel, at, role, mode, true, Some(generation));
      && r.Welcome? && t.current == s.current[agentId := c]
      && t.bootGenerations == s.bootGenerations[agentId := generation]
      && t.activeRoom == (if AsksRoom(role, mode) then Some(ActiveRoom(agentId, connectionId))
                          else ReleasedForAgent(s.activeRoom, agentId))
  {
    assert s.current[agentId := s.current[agentId].(lastSeenAt := at)][agentId].lastSeenAt == at;
  }

  lemma OneAgentChanged(s: Hub, t: Hub, agentId: string)
    requires agentId in t.current && t.current == s.current[agentId := t.current[agentId]]
    requires agentId in t.bootGenerations
             && t.bootGenerations == s.bootGenerations[agentId := t.bootGenerations[agentId]]
    requires t.activeRoom == ReleasedForAgent(s.activeRoom, agentId)
             || (t.activeRoom.Some? && t.activeRoom.value.agentId == agentId
                 && ReleasedForAgent(s.activeRoom, agentId) == None)
    ensures OthersKept(s, t, agentId)
  {
  }

  lemma LeaseIsElsewhere(s: Hub, agentId: string)
    requires LeaseMatches(s)
    ensures RoomElsewhere(s, agentId) <==> s.activeRoom.Some? && s.activeRoom.value.agentId != agentId
  {
    if s.activeRoom.Some? {
      assert IsLiveRoom(s, s.activeRoom.value.agentId, s.activeRoom.value.connectionId);
    }
  }

  lemma OneLease(s: Hub, agentId: string, connectionId: string)
    requires LeaseMatches(s)
    ensures s.activeRoom == Some(ActiveRoom(agentId, connectionId)) <==> IsLiveRoom(s, agentId, connectionId)
  {
  }

  // ---------------------------------------------------------------- messages and removal

  /** A message of the current connection refreshes it, and does nothing else; others do nothing. */
  lemma MessageOutcome(s: Hub, agentId: string, connectionId: string, at: int)
    ensures var t := AfterEvent(s, Message(agentId, connectionId, at));
      && t.activeRoom == s.activeRoom && OthersKept(s, t, agentId) && t.bootGenerations == s.bootGenerations
      && (s.IsCurrent(agentId, connectionId) ==>
            t.IsCurrent(agentId, connectionId) && t.current[agentId] == s.current[agentId].(lastSeenAt := at))
      && (!s.IsCurrent(agentId, connectionId) ==> t == s)
  {
  }

  /** A removal takes away exactly the named connection if it is current, and not seen for 61 seconds
      where expiry is asked about, and the lease with it; else nothing. */
  lemma DisconnectOutcome(events: seq<Event>, agentId: string, connectionId: string, expiryCheckAt: Option<int>)
    ensures var s := AfterEvents(EMPTY_HUB, events);
      var t := AfterEvent(s, Disconnect(agentId, connectionId, expiryCheckAt));
      if && s.IsCurrent(agentId, connectionId)
         && (expiryCheckAt.Some? ==> expiryCheckAt.value - s.current[agentId].lastSeenAt >= 61 * NANOS_PER_SECOND)
      then agentId !in t.current && OthersKept(s, t, agentId) && t.bootGenerations == s.bootGenerations
           && forall id :: t.activeRoom != Some(ActiveRoom(agentId, id))
      else t == s
  {
    ReachedLease(events);
    var s := AfterEvents(EMPTY_HUB, events);
    if s.IsCurrent(agentId, connectionId) && expiryCheckAt.Some? {
      ExpiredIff(s.current[agentId], expiryCheckAt.value);
    }
    hide Expired;
  }

  // ---------------------------------------------------------------- routing

  /** A command reaches an agent if and only if its current connection was greeted and takes commands,
      and then goes into that connection's channel; each failure has its reason. */
  lemma RoutingOutcome(s: Hub, agentId: string)
    ensures match CommandTarget(s, agentId)
      case Ok(target) =>
        && agentId in s.current
        && var c := s.current[agentId];
           c.helloReceived && c.mode == CommandCapable && target == Target(agentId, c.connectionId, c.channel, None)
      case Err(e) =>
        if agentId !in s.current then e == AgentOffline
        else if s.current[agentId].mode == ReportingOnly then e == AgentReportingOnly
        else e == AgentNotReady && !s.current[agentId].helloReceived
  {
  }

  /** A Room command goes to the holder of the lease if it is live, and fails with a reason of its own for
      each way in which it is not. */
  lemma RoomOutcome(s: Hub)
    ensures match RoomTarget(s)
      case Ok(target) =>
        && s.activeRoom == Some(ActiveRoom(target.agentId, target.connectionId))
        && IsLiveRoom(s, target.agentId, target.connectionId)
        && target == Target(target.agentId, target.connectionId, s.current[target.agentId].channel, Some(Room))
      case Err(e) =>
        if s.activeRoom.None? then e == NotActive
        else
          var agentId, connectionId := s.activeRoom.value.agentId, s.activeRoom.value.connectionId;
          if s.IsCurrent(agentId, connectionId) && AsksRoom(s.current[agentId].role, s.current[agentId].mode) then
            e == RoomTimeout(AgentNotReady) && !s.current[agentId].helloReceived
          else e == StateConflict
  {
  }

  /** A target is admitted again if and only if its connection is still the agent's current one, greeted
      and command-capable, and still of the role that was asked for. */
  lemma AdmissionOutcome(s: Hub, target: Target)
    ensures var e := AdmissionError(s, target);
      && (e == None <==>
           && s.IsCurrent(target.agentId, target.connectionId)
           && var c := s.current[target.agentId];
              c.helloReceived && c.mode == CommandCapable
              && (target.expectedRole.Some? ==> c.role == target.expectedRole.value))
      && (e == Some(AgentOffline) <==> target.agentId !in s.current)
      && (e == Some(AgentConnectionChanged) <==>
            target.agentId in s.current && !s.IsCurrent(target.agentId, target.connectionId))
      && (e == Some(AgentNotReady) <==>
            s.IsCurrent(target.agentId, target.connectionId) && !s.current[target.agentId].helloReceived)
      && (e == Some(AgentReportingOnly) <==>
            && s.IsCurrent(target.agentId, target.connectionId) && s.current[target.agentId].helloReceived
            && s.current[target.agentId].mode == ReportingOnly)
  {
  }
}
