/** The Hub's connection map and the active-room lease (agents/lifecycle.rs, room/control.rs).
    Every operation runs under the `agents` lock, so one call is one step. */
module HubConnections {
  import opened Text

  datatype Role = Normal | Room
  datatype ConnectionMode = CommandCapable | ReportingOnly

  /** `channel` stands for the sender half of the connection's own message channel. */
  datatype Connection = Connection(
    connectionId: string,
    channel: nat,
    lastSeenAt: int,
    role: Role,
    mode: ConnectionMode,
    helloReceived: bool,
    bootGeneration: Option<string>)

  datatype ActiveRoom = ActiveRoom(agentId: string, connectionId: string)

  datatype Hub = Hub(
    current: map<string, Connection>,
    activeRoom: Option<ActiveRoom>,
    bootGenerations: map<string, string>)
  {
    predicate IsCurrent(agentId: string, connectionId: string) {
      agentId in current && current[agentId].connectionId == connectionId
    }
  }

  const EMPTY_HUB := Hub(map[], None, map[])

  // ---------------------------------------------------------------- the lease

  function Released(active: Option<ActiveRoom>, agentId: string, connectionId: string): Option<ActiveRoom> {
    if active == Some(ActiveRoom(agentId, connectionId)) then None else active
  }

  function ReleasedForAgent(active: Option<ActiveRoom>, agentId: string): Option<ActiveRoom> {
    if active.Some? && active.value.agentId == agentId then None else active
  }

  /** The lease after a registration, or None when another agent holds it. */
  function Registered(active: Option<ActiveRoom>, agentId: string, connectionId: string, role: Role,
                      mode: ConnectionMode)
    : Option<Option<ActiveRoom>>
  {
    if mode == ReportingOnly || role == Normal then Some(ReleasedForAgent(active, agentId))
    else if active.Some? && active.value.agentId != agentId then None
    else Some(Some(ActiveRoom(agentId, connectionId)))
  }

  // ---------------------------------------------------------------- steps

  datatype ReplaceResult = Replaced(closed: Option<nat>) | InvalidConnectionId | ConnectionIdInUse

  /** A fresh connection takes the agent's place; the old one loses the lease. */
  function AfterReplace(s: Hub, agentId: string, connectionId: string, channel: nat, now: int): (Hub, ReplaceResult) {
    if connectionId == "" then (s, InvalidConnectionId)
    else if s.IsCurrent(agentId, connectionId) then (s, ConnectionIdInUse)
    else
      var connection := Connection(connectionId, channel, now, Normal, CommandCapable, false, None);
      var inserted := s.(current := s.current[agentId := connection]);
      if agentId in s.current then
        var previous := s.current[agentId];
        (inserted.(activeRoom := Released(s.activeRoom, agentId, previous.connectionId)),
         Replaced(Some(previous.channel)))
      else (inserted, Replaced(None))
  }

  /** Any message of the current connection refreshes it. */
  function Touched(s: Hub, agentId: string, connectionId: string, now: int): Hub {
    if s.IsCurrent(agentId, connectionId) then
      s.(current := s.current[agentId := s.current[agentId].(lastSeenAt := now)])
    else s
  }

  datatype HelloResult = StaleConnection | RoomAlreadyActive(closed: nat) | Welcome(generationChanged: bool)

  function AfterHello(s: Hub, agentId: string, connectionId: string, generation: string, role: Role,
                      mode: ConnectionMode, now: int): (Hub, HelloResult)
  {
    if !s.IsCurrent(agentId, connectionId) then (s, StaleConnection)
    else
      var t := Touched(s, agentId, connectionId, now);
      var connection := t.current[agentId];
      match Registered(t.activeRoom, agentId, connectionId, role, mode)
      case None => (t, RoomAlreadyActive(connection.channel))
      case Some(active) =>
        var changed := agentId in t.bootGenerations && t.bootGenerations[agentId] != generation;
        var greeted := connection.(role := role, mode := mode, helloReceived := true,
                                   bootGeneration := Some(generation));
        (Hub(t.current[agentId := greeted], active, t.bootGenerations[agentId := generation]), Welcome(changed))
  }

  const CONNECTION_TTL_SECONDS := 60
  const NANOS_PER_SECOND := 1_000_000_000

  /** Whole seconds of a span in nanoseconds, truncated toward zero. */
  function NumSeconds(nanos: int): int {
    if nanos >= 0 then nanos / NANOS_PER_SECOND else -((-nanos) / NANOS_PER_SECOND)
  }

  predicate Expired(connection: Connection, now: int) {
    NumSeconds(now - connection.lastSeenAt) > CONNECTION_TTL_SECONDS
  }

  predicate Removes(s: Hub, agentId: string, connectionId: string, expiryCheckAt: Option<int>) {
    && s.IsCurrent(agentId, connectionId)
    && (expiryCheckAt.Some? ==> Expired(s.current[agentId], expiryCheckAt.value))
  }

  function AfterDisconnect(s: Hub, agentId: string, connectionId: string, expiryCheckAt: Option<int>): Hub {
    if Removes(s, agentId, connectionId, expiryCheckAt) then
      s.(current := s.current - {agentId}, activeRoom := Released(s.activeRoom, agentId, connectionId))
    else s
  }

  // ---------------------------------------------------------------- routing

  datatype RouteError = AgentOffline | AgentReportingOnly | AgentNotReady | AgentConnectionChanged | AgentRoleChanged
  datatype RoomRouteError = NotActive | StateConflict | RoomTimeout(reason: RouteError)

  datatype Target = Target(agentId: string, connectionId: string, channel: nat, expectedRole: Option<Role>)

  function CommandTarget(s: Hub, agentId: string): Result<Target, RouteError> {
    if agentId !in s.current then Err(AgentOffline)
    else
      var c := s.current[agentId];
      if c.mode == ReportingOnly then Err(AgentReportingOnly)
      else if !c.helloReceived then Err(AgentNotReady)
      else Ok(Target(agentId, c.connectionId, c.channel, None))
  }

  function RoomTarget(s: Hub): Result<Target, RoomRouteError> {
    if s.activeRoom.None? then Err(NotActive)
    else
      var active := s.activeRoom.value;
      if active.agentId !in s.current then Err(StateConflict)
      else
        var c := s.current[active.agentId];
        if c.connectionId != active.connectionId || c.role != Room || c.mode != CommandCapable then Err(StateConflict)
        else if !c.helloReceived then Err(RoomTimeout(AgentNotReady))
        else Ok(Target(active.agentId, c.connectionId, c.channel, Some(Room)))
  }

  /** The check before a command goes out after its guards were dropped; None admits it. */
  function AdmissionError(s: Hub, target: Target): Option<RouteError> {
    if target.agentId !in s.current then Some(AgentOffline)
    else
      var c := s.current[target.agentId];
      if c.connectionId != target.connectionId then Some(AgentConnectionChanged)
      else if !c.helloReceived then Some(AgentNotReady)
      else if c.mode == ReportingOnly then Some(AgentReportingOnly)
      else if target.expectedRole.Some? && c.role != target.expectedRole.value then Some(AgentRoleChanged)
      else None
  }

  // ---------------------------------------------------------------- the object

  class Connections {
    var current: map<string, Connection>
    var activeRoom: Option<ActiveRoom>
    var bootGenerations: map<string, string>

    function View(): Hub
      reads this
    {
      Hub(current, activeRoom, bootGenerations)
    }

    constructor ()
      ensures View() == EMPTY_HUB
    {
      current, activeRoom, bootGenerations := map[], None, map[];
    }

    method ReleaseActiveRoomIfCurrent(agentId: string, connectionId: string)
      modifies this`activeRoom
      ensures activeRoom == Released(old(activeRoom), agentId, connectionId)
    {
      if activeRoom.Some? && activeRoom.value.agentId == agentId && activeRoom.value.connectionId == connectionId {
        activeRoom := None;
      }
    }

    method ReleaseActiveRoomForAgent(agentId: string)
      modifies this`activeRoom
      ensures activeRoom == ReleasedForAgent(old(activeRoom), agentId)
    {
      if activeRoom.Some? && activeRoom.value.agentId == agentId {
        activeRoom := None;
      }
    }

    method RegisterConnectionMode(agentId: string, connectionId: string, role: Role, mode: ConnectionMode)
      returns (ok: bool)
      modifies this`activeRoom
      ensures var registered := Registered(old(activeRoom), agentId, connectionId, role, mode);
        ok == registered.Some? && activeRoom == if ok then registered.value else old(activeRoom)
    {
      if mode == ReportingOnly {
        ReleaseActiveRoomForAgent(agentId);
        return true;
      }
      ok := RegisterConnectionRole(agentId, connectionId, role);
    }

    method RegisterConnectionRole(agentId: string, connectionId: string, role: Role) returns (ok: bool)
      modifies this`activeRoom
      ensures var registered := Registered(old(activeRoom), agentId, connectionId, role, CommandCapable);
        ok == registered.Some? && activeRoom == if ok then registered.value else old(activeRoom)
    {
      if role == Normal {
        ReleaseActiveRoomForAgent(agentId);
        return true;
      }
      if activeRoom.Some? && activeRoom.value.agentId != agentId {
        return false;
      }
      activeRoom := Some(ActiveRoom(agentId, connectionId));
      return true;
    }

    method ReplaceAgentConnection(agentId: string, connectionId: string, channel: nat, now: int)
      returns (r: ReplaceResult)
      modifies this
      ensures (View(), r) == AfterReplace(old(View()), agentId, connectionId, channel, now)
    {
      if connectionId == "" {
        return InvalidConnectionId;
      }
      if agentId in current && current[agentId].connectionId == connectionId {
        return ConnectionIdInUse;
      }
      var replaced := agentId in current;
      var connection := Connection(connectionId, channel, now, Normal, CommandCapable, false, None);
      if !replaced {
        current := current[agentId := connection];
        return Replaced(None);
      }
      var previous := current[agentId];
      current := current[agentId := connection];
      ReleaseActiveRoomIfCurrent(agentId, previous.connectionId);
      return Replaced(Some(previous.channel));
    }

    method HandleHello(agentId: string, connectionId: string, generation: string, role: Role, mode: ConnectionMode,
                       now: int)
      returns (r: HelloResult)
      modifies this
      ensures (View(), r) == AfterHello(old(View()), agentId, connectionId, generation, role, mode, now)
    {
      if agentId !in current || current[agentId].connectionId != connectionId {
        return StaleConnection;
      }
      Touch(agentId, connectionId, now);
      var ok := RegisterConnectionMode(agentId, connectionId, role, mode);
      var connection := current[agentId];
      if !ok {
        return RoomAlreadyActive(connection.channel);
      }
      var changed := agentId in bootGenerations && bootGenerations[agentId] != generation;
      bootGenerations := bootGenerations[agentId := generation];
      current := current[agentId :=
        connection.(role := role, mode := mode, helloReceived := true, bootGeneration := Some(generation))];
      return Welcome(changed);
    }

    method Touch(agentId: string, connectionId: string, now: int)
      modifies this`current
      ensures View() == Touched(old(View()), agentId, connectionId, now)
    {
      if agentId in current && current[agentId].connectionId == connectionId {
        current := current[agentId := current[agentId].(lastSeenAt := now)];
      }
    }

    method DisconnectAgent(agentId: string, connectionId: string, expiryCheckAt: Option<int>) returns (removed: bool)
      modifies this
      ensures View() == AfterDisconnect(old(View()), agentId, connectionId, expiryCheckAt)
      ensures removed == Removes(old(View()), agentId, connectionId, expiryCheckAt)
    {
      removed := false;
      if agentId in current && current[agentId].connectionId == connectionId {
        if expiryCheckAt.None? || Expired(current[agentId], expiryCheckAt.value) {
          removed := true;
          current := current - {agentId};
          ReleaseActiveRoomIfCurrent(agentId, connectionId);
        }
      }
    }

    /** Uninterrupted, one sweep removes exactly the expired connections. */
    method CleanupExpiredOnce(now: int)
      modifies this
      ensures current == Unexpired(old(current), now)
      ensures bootGenerations == old(bootGenerations)
      ensures activeRoom == if LeaseExpires(old(View()), now) then None else old(activeRoom)
    {
      var expired := set agentId | agentId in current && Expired(current[agentId], now);
      var ids := map agentId | agentId in expired :: current[agentId].connectionId;
      var left := expired;
      while left != {}
        invariant left <= expired
        invariant current == old(current) - (expired - left)
        invariant bootGenerations == old(bootGenerations)
        invariant activeRoom == if LeaseExpires(old(View()), now) && old(activeRoom).value.agentId !in left then None
                                else old(activeRoom)
        decreases left
      {
        var agentId :| agentId in left;
        var removed := DisconnectAgent(agentId, ids[agentId], Some(now));
        assert removed;
        left := left - {agentId};
      }
    }
  }

  predicate LeaseExpires(s: Hub, now: int) {
    && s.activeRoom.Some? && s.IsCurrent(s.activeRoom.value.agentId, s.activeRoom.value.connectionId)
    && Expired(s.current[s.activeRoom.value.agentId], now)
  }

  function Unexpired(current: map<string, Connection>, now: int): map<string, Connection> {
    map agentId | agentId in current && !Expired(current[agentId], now) :: current[agentId]
  }
}
