/** Requests, responses and timeouts in every interleaving: each step is one critical section
    of the locks in agents/dispatch.rs and agents/lifecycle.rs. */
module HubRequests {
  import opened Text
  import opened HubConnections
  import opened HubRuns
  import opened HubDispatch

  datatype Phase =
    | Flushing(target: Target)    // both guards dropped until the feedback flush is done
    | SendFailed(target: Target)  // about to drop the connection that could not be sent to
    | Waiting                     // the receiver is alive
    | TimedOut                    // the timer fired; the waiter may still be there
    | Returned(value: Option<string>)

  /** `mail` is the content of the one-shot channel, `wakes` how often it was filled. */
  datatype Call = Call(room: bool, requestId: string, commandHash: string, runId: Option<string>,
                       mail: Option<string>, wakes: nat, phase: Phase)

  /** A response being handled: stored, then with its waiter taken, then finished. */
  datatype Handler =
    | Matched(agentId: string, runId: string, requestId: string, commandHash: string, value: string)
    | Holding(call: nat, runId: string, value: string)
    | Finished

  /** A command that left, with the Hub as it was at that moment. */
  datatype Sent = Sent(room: bool, target: Target, hub: Hub)

  /** `latest` records the channel of the last connection made under each agent and id. */
  datatype World = World(hub: Hub, tables: Tables, calls: map<nat, Call>, handlers: map<nat, Handler>,
                         sent: seq<Sent>, latest: map<(string, string), nat>)

  const EMPTY_WORLD := World(EMPTY_HUB, Tables(map[], map[]), map[], map[], [], map[])

  datatype Preflight = Ready | MustFlush | Broken

  datatype Step =
    | HubStep(event: Event)
    | Request(call: nat, to: Option<string>, requestId: string, commandHash: string,
              preflight: Preflight, runId: string, channelOpen: bool)
    | Readmit(call: nat, preflight: Preflight, runId: string, channelOpen: bool)
    | DropTarget(call: nat)
    | Response(handler: nat, agentId: string, runId: string, requestId: string, value: string)
    | Take(handler: nat)
    | Deliver(handler: nat)
    | Wake(call: nat, accepted: bool)
    | TimeOut(call: nat)
    | RemoveWaiter(call: nat)
    | Report(agentId: string, runId: string, requestId: string, commandHash: string, result: Option<string>)

  function AfterHubEvent(w: World, e: Event): World {
    var connected := e.Connect? && AfterReplace(w.hub, e.agentId, e.connectionId, e.channel, e.at).1.Replaced?;
    w.(hub := AfterEvent(w.hub, e),
       latest := if connected then w.latest[(e.agentId, e.connectionId) := e.channel] else w.latest)
  }

  /** One pass of the request loop while both guards are held. */
  function Dispatched(w: World, id: nat, call: Call, target: Target, preflight: Preflight, runId: string,
                      channelOpen: bool)
    : World
  {
    match preflight
    case Broken => w.(calls := w.calls[id := call.(phase := Returned(None))])
    case MustFlush => w.(calls := w.calls[id := call.(phase := Flushing(target))])
    case Ready =>
      var run := Run(target.agentId, call.requestId, call.commandHash, None);
      var phase := if channelOpen then Waiting else SendFailed(target);
      w.(tables := AfterSend(w.tables, runId, run, id, channelOpen),
         calls := w.calls[id := call.(runId := Some(runId), phase := phase)],
         sent := if channelOpen then w.sent + [Sent(call.room, target, w.hub)] else w.sent)
  }

  function Resolved(w: World, to: Option<string>): Option<Target> {
    match to
    case Some(id) => (match CommandTarget(w.hub, id) case Ok(target) => Some(target) case Err(_) => None)
    case None => (match RoomTarget(w.hub) case Ok(target) => Some(target) case Err(_) => None)
  }

  function Next(w: World, step: Step): World {
    match step
    case HubStep(event) => AfterHubEvent(w, event)
    case Request(id, to, requestId, commandHash, preflight, runId, channelOpen) =>
      // random run ids are new
      if id in w.calls || runId in w.tables.runs then w
      else
        var call := Call(to.None?, requestId, commandHash, None, None, 0, Returned(None));
        (match Resolved(w, to)
         case None => w.(calls := w.calls[id := call])
         case Some(target) => Dispatched(w, id, call, target, preflight, runId, channelOpen))
    case Readmit(id, preflight, runId, channelOpen) =>
      if id !in w.calls || !w.calls[id].phase.Flushing? || runId in w.tables.runs then w
      else if AdmissionError(w.hub, w.calls[id].phase.target).Some? then
        w.(calls := w.calls[id := w.calls[id].(phase := Returned(None))])
      else Dispatched(w, id, w.calls[id], w.calls[id].phase.target, preflight, runId, channelOpen)
    case DropTarget(id) =>
      if id !in w.calls || !w.calls[id].phase.SendFailed? then w
      else
        var target := w.calls[id].phase.target;
        w.(hub := AfterDisconnect(w.hub, target.agentId, target.connectionId, None),
           calls := w.calls[id := w.calls[id].(phase := Returned(None))])
    case Response(handler, agentId, runId, requestId, value) =>
      if handler in w.handlers then w
      else
        var (runs, outcome) := AfterStore(w.tables.runs, agentId, runId, requestId, value);
        w.(tables := w.tables.(runs := runs),
           handlers := w.handlers[handler :=
             if outcome.Accepted() then Matched(agentId, runId, requestId, outcome.commandHash, value) else Finished])
    case Take(handler) =>
      if handler !in w.handlers || !w.handlers[handler].Matched? then w
      else
        var h := w.handlers[handler];
        var (pending, taken) := AfterTake(w.tables.pending, h.agentId, h.runId, h.requestId, h.commandHash);
        w.(tables := w.tables.(pending := pending),
           handlers := w.handlers[handler := if taken.Took? then Holding(taken.call, h.runId, h.value) else Finished])
    case Deliver(handler) =>
      if handler !in w.handlers || !w.handlers[handler].Holding? then w
      else
        var h := w.handlers[handler];
        var finished := w.(handlers := w.handlers[handler := Finished]);
        // a receiver that timed out is gone, and the value is dropped
        if h.call in w.calls && w.calls[h.call].phase.Waiting? then
          finished.(calls := w.calls[h.call :=
            w.calls[h.call].(mail := Some(h.value), wakes := w.calls[h.call].wakes + 1)])
        else finished
    case Wake(id, accepted) =>
      // feedback bookkeeping may still turn the value down
      if id !in w.calls || !w.calls[id].phase.Waiting? || w.calls[id].mail.None? then w
      else w.(calls := w.calls[id := w.calls[id].(phase := Returned(if accepted then w.calls[id].mail else None))])
    case TimeOut(id) =>
      if id !in w.calls || !w.calls[id].phase.Waiting? || w.calls[id].mail.Some? then w
      else w.(calls := w.calls[id := w.calls[id].(phase := TimedOut)])
    case RemoveWaiter(id) =>
      if id !in w.calls || !w.calls[id].phase.TimedOut? || w.calls[id].runId.None? then w
      else w.(tables := w.tables.(pending := w.tables.pending - {w.calls[id].runId.value}),
              calls := w.calls[id := w.calls[id].(phase := Returned(None))])
    case Report(agentId, runId, requestId, commandHash, result) =>
      w.(tables := w.tables.(runs := AfterReport(w.tables.runs, agentId, runId, requestId, commandHash, result)))
  }

  function After(w: World, steps: seq<Step>): World
    decreases |steps|
  {
    if steps == [] then w else After(Next(w, steps[0]), steps[1..])
  }

  // ---------------------------------------------------------------- responses

  predicate RunIs(w: World, runId: string, requestId: string, commandHash: string) {
    && runId in w.tables.runs && w.tables.runs[runId].requestId == requestId
    && w.tables.runs[runId].commandHash == commandHash
  }

  predicate HasResult(w: World, runId: string, value: string) {
    runId in w.tables.runs && w.tables.runs[runId].result == Some(value)
  }

  predicate IsRunOf(w: World, id: nat, runId: string) {
    id in w.calls && w.calls[id].runId == Some(runId)
  }

  /** A waiter mirrors its run, and its call is still out and not yet woken. */
  predicate WaiterOk(w: World, runId: string)
    requires runId in w.tables.pending
  {
    var waiter := w.tables.pending[runId];
    && RunIs(w, runId, waiter.requestId, waiter.commandHash) && w.tables.runs[runId].agentId == waiter.agentId
    && IsRunOf(w, waiter.call, runId) && w.calls[waiter.call].mail == None
    && (w.calls[waiter.call].phase.Waiting? || w.calls[waiter.call].phase.TimedOut?)
  }

  predicate CallOk(w: World, id: nat)
    requires id in w.calls
  {
    var call := w.calls[id];
    && (call.runId.Some? ==> RunIs(w, call.runId.value, call.requestId, call.commandHash))
    && (call.phase.Waiting? || call.phase.TimedOut? ==> call.runId.Some?)
    && call.wakes == (if call.mail.Some? then 1 else 0)
    && (call.mail.Some? ==> call.runId.Some? && HasResult(w, call.runId.value, call.mail.value))
    && (call.phase.Returned? && call.phase.value.Some? ==> call.phase.value == call.mail)
  }

  predicate HandlerOk(w: World, handler: nat)
    requires handler in w.handlers
  {
    match w.handlers[handler]
    case Matched(agentId, runId, requestId, commandHash, value) =>
      RunIs(w, runId, requestId, commandHash) && w.tables.runs[runId].agentId == agentId && HasResult(w, runId, value)
    case Holding(call, runId, value) =>
      && HasResult(w, runId, value) && IsRunOf(w, call, runId)
      && w.calls[call].mail == None && runId !in w.tables.pending
    case Finished => true
  }

  ghost predicate Valid(w: World) {
    && (forall runId :: runId in w.tables.pending ==> WaiterOk(w, runId))
    && (forall id :: id in w.calls ==> CallOk(w, id))
    && (forall handler :: handler in w.handlers ==> HandlerOk(w, handler))
    // no two calls share a run, no two handlers hold the same sender
    && (forall a, b :: a in w.calls && b in w.calls && w.calls[a].runId.Some? && w.calls[a].runId == w.calls[b].runId
                       ==> a == b)
    && (forall h, k :: h in w.handlers && k in w.handlers && HoldSame(w.handlers[h], w.handlers[k]) ==> h == k)
  }

  predicate HoldSame(h: Handler, k: Handler) {
    h.Holding? && k.Holding? && h.call == k.call
  }

  lemma HubEventKeeps(w: World, e: Event)
    requires Valid(w)
    ensures Valid(AfterHubEvent(w, e))
  {
    hide AfterEvent, AfterReplace;
    SameTablesKeep(w, AfterHubEvent(w, e));
  }

  /** Validity speaks of the tables, calls and handlers only. */
  lemma SameTablesKeep(w: World, v: World)
    requires Valid(w) && w.tables == v.tables && w.calls == v.calls && w.handlers == v.handlers
    ensures Valid(v)
  {
    forall runId | runId in v.tables.pending
      ensures WaiterOk(v, runId)
    {
      assert WaiterOk(w, runId);
    }
    forall id | id in v.calls
      ensures CallOk(v, id)
    {
      assert CallOk(w, id);
    }
    forall handler | handler in v.handlers
      ensures HandlerOk(v, handler)
    {
      assert HandlerOk(w, handler);
    }
  }

  /** Runs stay what they are, and keep a result they have. */
  ghost predicate RunsGrow(before: map<string, Run>, after: map<string, Run>) {
    forall runId :: runId in before ==> RunGrows(before, after, runId)
  }

  predicate RunGrows(before: map<string, Run>, after: map<string, Run>, runId: string)
    requires runId in before
  {
    && runId in after
    && after[runId] == before[runId].(result := after[runId].result)
    && (before[runId].result.Some? ==> after[runId].result == before[runId].result)
  }

  lemma RunsGrowTransitive(a: map<string, Run>, b: map<string, Run>, c: map<string, Run>)
    requires RunsGrow(a, b) && RunsGrow(b, c)
    ensures RunsGrow(a, c)
  {
    forall runId | runId in a
      ensures RunGrows(a, c, runId)
    {
      assert RunGrows(a, b, runId) && RunGrows(b, c, runId);
    }
  }

  lemma StoreGrows(runs: map<string, Run>, agentId: string, runId: string, requestId: string, value: string)
    ensures RunsGrow(runs, AfterStore(runs, agentId, runId, requestId, value).0)
  {
  }

  lemma ReportGrows(runs: map<string, Run>, agentId: string, runId: string, requestId: string, commandHash: string,
                    result: Option<string>)
    ensures RunsGrow(runs, AfterReport(runs, agentId, runId, requestId, commandHash, result))
  {
  }

  lemma DispatchGrows(w: World, id: nat, call: Call, target: Target, preflight: Preflight, runId: string,
                      channelOpen: bool)
    requires runId !in w.tables.runs
    ensures RunsGrow(w.tables.runs, Dispatched(w, id, call, target, preflight, runId, channelOpen).tables.runs)
  {
  }

  lemma RunsGrowReflexive(runs: map<string, Run>)
    ensures RunsGrow(runs, runs)
  {
  }

  /** No step changes a run's identity or a result that is there. */
  lemma StepGrowsRuns(w: World, step: Step)
    ensures RunsGrow(w.tables.runs, Next(w, step).tables.runs)
  {
    hide AfterEvent, AfterReplace, AfterDisconnect, Resolved, AdmissionError, RunsGrow, AfterStore, AfterReport,
         AfterTake, Dispatched;
    RunsGrowReflexive(w.tables.runs);
    match step {
      case Response(_, agentId, runId, requestId, value) => StoreGrows(w.tables.runs, agentId, runId, requestId, value);
      case Report(agentId, runId, requestId, commandHash, result) =>
        ReportGrows(w.tables.runs, agentId, runId, requestId, commandHash, result);
      case Request(id, to, requestId, commandHash, preflight, runId, channelOpen) =>
        var call := Call(to.None?, requestId, commandHash, None, None, 0, Returned(None));
        if runId !in w.tables.runs && Resolved(w, to).Some? {
          DispatchGrows(w, id, call, Resolved(w, to).value, preflight, runId, channelOpen);
        }
      case Readmit(id, preflight, runId, channelOpen) =>
        if runId !in w.tables.runs && id in w.calls && w.calls[id].phase.Flushing? {
          DispatchGrows(w, id, w.calls[id], w.calls[id].phase.target, preflight, runId, channelOpen);
        }
      case _ =>
    }
  }

  lemma RunsChangeKeeps(w: World, runs: map<string, Run>)
    requires Valid(w) && RunsGrow(w.tables.runs, runs)
    ensures Valid(w.(tables := w.tables.(runs := runs)))
  {
    var v := w.(tables := w.tables.(runs := runs));
    forall runId | runId in v.tables.pending
      ensures WaiterOk(v, runId)
    {
      assert WaiterOk(w, runId) && RunGrows(w.tables.runs, runs, runId);
    }
    forall id | id in v.calls
      ensures CallOk(v, id)
    {
      assert CallOk(w, id);
      if w.calls[id].runId.Some? {
        assert RunGrows(w.tables.runs, runs, w.calls[id].runId.value);
      }
    }
    forall handler | handler in v.handlers
      ensures HandlerOk(v, handler)
    {
      assert HandlerOk(w, handler);
      if !w.handlers[handler].Finished? {
        assert RunGrows(w.tables.runs, runs, w.handlers[handler].runId);
      }
    }
  }

  lemma HandlerSet(w: World, handler: nat, h: Handler)
    requires Valid(w)
    requires forall k :: k in w.handlers && HoldSame(h, w.handlers[k]) ==> k == handler
    requires HandlerOk(w.(handlers := w.handlers[handler := h]), handler)
    ensures Valid(w.(handlers := w.handlers[handler := h]))
  {
    var v := w.(handlers := w.handlers[handler := h]);
    forall runId | runId in v.tables.pending
      ensures WaiterOk(v, runId)
    {
      assert WaiterOk(w, runId);
    }
    forall id | id in v.calls
      ensures CallOk(v, id)
    {
      assert CallOk(w, id);
    }
    forall k | k in v.handlers
      ensures HandlerOk(v, k)
    {
      assert k != handler ==> HandlerOk(w, k);
    }
    assert forall j, k :: HoldSame(j, k) ==> HoldSame(k, j);
  }

  lemma ResponseKeeps(w: World, handler: nat, agentId: string, runId: string, requestId: string, value: string)
    requires Valid(w)
    ensures Valid(Next(w, Response(handler, agentId, runId, requestId, value)))
  {
    if handler !in w.handlers {
      var (runs, outcome) := AfterStore(w.tables.runs, agentId, runId, requestId, value);
      StepGrowsRuns(w, Response(handler, agentId, runId, requestId, value));
      var t := w.(tables := w.tables.(runs := runs));
      var h := if outcome.Accepted() then Matched(agentId, runId, requestId, outcome.commandHash, value) else Finished;
      assert HandlerOk(t.(handlers := t.handlers[handler := h]), handler);
      assert Next(w, Response(handler, agentId, runId, requestId, value)) == t.(handlers := t.handlers[handler := h]);
      hide Valid, HandlerOk, AfterStore, RunsGrow, Next;
      RunsChangeKeeps(w, runs);
      HandlerSet(t, handler, h);
    }
  }

  lemma ReportKeeps(w: World, agentId: string, runId: string, requestId: string, commandHash: string,
                    result: Option<string>)
    requires Valid(w)
    ensures Valid(Next(w, Report(agentId, runId, requestId, commandHash, result)))
  {
    hide Valid, AfterReport, RunsGrow;
    StepGrowsRuns(w, Report(agentId, runId, requestId, commandHash, result));
    RunsChangeKeeps(w, AfterReport(w.tables.runs, agentId, runId, requestId, commandHash, result));
  }

  /** For a stored response, the waiter of its run can only be its own. */
  lemma OwnerMatches(w: World, handler: nat)
    requires Valid(w) && handler in w.handlers && w.handlers[handler].Matched?
    ensures var h := w.handlers[handler];
      !AfterTake(w.tables.pending, h.agentId, h.runId, h.requestId, h.commandHash).1.OwnerMismatch?
  {
    assert HandlerOk(w, handler);
    var h := w.handlers[handler];
    if h.runId in w.tables.pending {
      assert WaiterOk(w, h.runId);
    }
  }

  /** A run that is still pending is held by no handler. */
  lemma PendingIsNotHeld(w: World, runId: string, h: Handler)
    requires Valid(w) && runId in w.tables.pending && h.Holding? && h.call == w.tables.pending[runId].call
    ensures forall k :: k in w.handlers ==> !HoldSame(h, w.handlers[k])
  {
    assert WaiterOk(w, runId);
    forall k | k in w.handlers
      ensures !HoldSame(h, w.handlers[k])
    {
      assert HandlerOk(w, k);
    }
  }

  lemma TakeKeeps(w: World, handler: nat)
    requires Valid(w)
    ensures Valid(Next(w, Take(handler)))
  {
    if handler in w.handlers && w.handlers[handler].Matched? {
      var h := w.handlers[handler];
      assert HandlerOk(w, handler);
      OwnerMatches(w, handler);
      if h.runId in w.tables.pending {
        var holding := Holding(w.tables.pending[h.runId].call, h.runId, h.value);
        var t := w.(tables := w.tables.(pending := w.tables.pending - {h.runId}));
        assert WaiterOk(w, h.runId);
        assert HandlerOk(t.(handlers := t.handlers[handler := holding]), handler);
        assert Next(w, Take(handler)) == t.(handlers := t.handlers[handler := holding]);
        hide Valid, HandlerOk, WaiterOk, Next, AfterTake, HoldSame;
        PendingIsNotHeld(w, h.runId, holding);
        PendingShrinks(w, h.runId);
        HandlerSet(t, handler, holding);
      } else {
        HandlerSet(w, handler, Finished);
      }
    }
  }

  /** The receiver is filled once: no waiter and no other holder can fill it again. */
  lemma MailKeeps(w: World, id: nat, value: string)
    requires Valid(w) && id in w.calls && w.calls[id].phase.Waiting? && w.calls[id].mail == None
    requires w.calls[id].runId.Some? && HasResult(w, w.calls[id].runId.value, value)
    requires w.calls[id].runId.value !in w.tables.pending
    requires forall k :: k in w.handlers && w.handlers[k].Holding? ==> w.handlers[k].call != id
    ensures Valid(w.(calls := w.calls[id := w.calls[id].(mail := Some(value), wakes := w.calls[id].wakes + 1)]))
  {
    var v := w.(calls := w.calls[id := w.calls[id].(mail := Some(value), wakes := w.calls[id].wakes + 1)]);
    forall runId | runId in v.tables.pending
      ensures WaiterOk(v, runId)
    {
      assert WaiterOk(w, runId);
    }
    forall k | k in v.calls
      ensures CallOk(v, k)
    {
      assert CallOk(w, k);
    }
    forall k | k in v.handlers
      ensures HandlerOk(v, k)
    {
      assert HandlerOk(w, k);
    }
  }

  lemma HolderIsAlone(w: World, handler: nat)
    requires Valid(w) && handler in w.handlers && w.handlers[handler].Holding?
    ensures HandlerOk(w, handler)
    ensures forall k :: k in w.handlers && k != handler && w.handlers[k].Holding? ==>
      w.handlers[k].call != w.handlers[handler].call
  {
    forall k | k in w.handlers && k != handler && w.handlers[k].Holding?
      ensures w.handlers[k].call != w.handlers[handler].call
    {
      assert !HoldSame(w.handlers[k], w.handlers[handler]);
    }
  }

  lemma DeliverKeeps(w: World, handler: nat)
    requires Valid(w)
    ensures Valid(Next(w, Deliver(handler)))
  {
    hide Valid;
    if handler in w.handlers && w.handlers[handler].Holding? {
      var h := w.handlers[handler];
      HolderIsAlone(w, handler);
      HandlerSet(w, handler, Finished);
      if w.calls[h.call].phase.Waiting? {
        MailKeeps(w.(handlers := w.handlers[handler := Finished]), h.call, h.value);
      }
    }
  }

  /** A change of one call's phase that leaves its run, mail and wakes alone. */
  lemma PhaseKeeps(w: World, id: nat, phase: Phase)
    requires Valid(w) && id in w.calls
    requires phase.Returned? && phase.value.Some? ==> phase.value == w.calls[id].mail
    requires phase.Waiting? || phase.TimedOut? ==> w.calls[id].runId.Some?
    requires (forall runId :: runId in w.tables.pending ==> w.tables.pending[runId].call != id) || phase.TimedOut?
    ensures Valid(w.(calls := w.calls[id := w.calls[id].(phase := phase)]))
  {
    var v := w.(calls := w.calls[id := w.calls[id].(phase := phase)]);
    forall runId | runId in v.tables.pending
      ensures WaiterOk(v, runId)
    {
      assert WaiterOk(w, runId);
    }
    forall k | k in v.calls
      ensures CallOk(v, k)
    {
      assert CallOk(w, k);
    }
    forall handler | handler in v.handlers
      ensures HandlerOk(v, handler)
    {
      assert HandlerOk(w, handler);
    }
  }

  lemma NoWaiterUnless(w: World, id: nat)
    requires Valid(w) && id in w.calls
    requires w.calls[id].mail.Some? || !(w.calls[id].phase.Waiting? || w.calls[id].phase.TimedOut?)
    ensures forall runId :: runId in w.tables.pending ==> w.tables.pending[runId].call != id
  {
    forall runId | runId in w.tables.pending
      ensures w.tables.pending[runId].call != id
    {
      assert WaiterOk(w, runId);
    }
  }

  lemma WakeKeeps(w: World, id: nat, accepted: bool)
    requires Valid(w)
    ensures Valid(Next(w, Wake(id, accepted)))
  {
    if id in w.calls && w.calls[id].phase.Waiting? && w.calls[id].mail.Some? {
      NoWaiterUnless(w, id);
      PhaseKeeps(w, id, Returned(if accepted then w.calls[id].mail else None));
    }
  }

  lemma TimeOutKeeps(w: World, id: nat)
    requires Valid(w)
    ensures Valid(Next(w, TimeOut(id)))
  {
    if id in w.calls && w.calls[id].phase.Waiting? && w.calls[id].mail.None? {
      assert CallOk(w, id);
      PhaseKeeps(w, id, TimedOut);
    }
  }

  lemma PendingShrinks(w: World, runId: string)
    requires Valid(w)
    ensures Valid(w.(tables := w.tables.(pending := w.tables.pending - {runId})))
  {
    var v := w.(tables := w.tables.(pending := w.tables.pending - {runId}));
    forall r | r in v.tables.pending
      ensures WaiterOk(v, r)
    {
      assert WaiterOk(w, r);
    }
    forall k | k in v.calls
      ensures CallOk(v, k)
    {
      assert CallOk(w, k);
    }
    forall handler | handler in v.handlers
      ensures HandlerOk(v, handler)
    {
      assert HandlerOk(w, handler);
    }
  }

  lemma RemoveWaiterKeeps(w: World, id: nat)
    requires Valid(w)
    ensures Valid(Next(w, RemoveWaiter(id)))
  {
    if id in w.calls && w.calls[id].phase.TimedOut? && w.calls[id].runId.Some? {
      var runId := w.calls[id].runId.value;
      var v := w.(tables := w.tables.(pending := w.tables.pending - {runId}));
      PendingShrinks(w, runId);
      forall r | r in v.tables.pending
        ensures v.tables.pending[r].call != id
      {
        assert WaiterOk(w, r);
      }
      PhaseKeeps(v, id, Returned(None));
    }
  }

  lemma DropTargetKeeps(w: World, id: nat)
    requires Valid(w)
    ensures Valid(Next(w, DropTarget(id)))
  {
    hide AfterDisconnect;
    if id in w.calls && w.calls[id].phase.SendFailed? {
      var v := w.(calls := w.calls[id := w.calls[id].(phase := Returned(None))]);
      NoWaiterUnless(w, id);
      PhaseKeeps(w, id, Returned(None));
      SameTablesKeep(v, Next(w, DropTarget(id)));
    }
  }

  /** A call that has no run yet. */
  predicate IsNew(call: Call) {
    call.runId == None && call.mail == None && call.wakes == 0
  }

  lemma NewCallKeeps(w: World, id: nat, call: Call)
    requires Valid(w) && IsNew(call) && (id in w.calls ==> IsNew(w.calls[id]))
    requires call.phase.Flushing? || call.phase == Returned(None)
    ensures Valid(w.(calls := w.calls[id := call]))
  {
    var v := w.(calls := w.calls[id := call]);
    forall runId | runId in v.tables.pending
      ensures WaiterOk(v, runId)
    {
      assert WaiterOk(w, runId);
    }
    forall k | k in v.calls
      ensures CallOk(v, k)
    {
      assert k != id ==> CallOk(w, k);
    }
    forall handler | handler in v.handlers
      ensures HandlerOk(v, handler)
    {
      assert HandlerOk(w, handler);
    }
  }

  lemma PendingRunsExist(w: World)
    requires Valid(w)
    ensures forall runId :: runId in w.tables.pending ==> runId in w.tables.runs
  {
    forall runId | runId in w.tables.pending
      ensures runId in w.tables.runs
    {
      assert WaiterOk(w, runId);
    }
  }

  /** The call gets its own new run. */
  lemma RunAssigned(w: World, id: nat, call: Call, runId: string)
    requires Valid(w) && IsNew(call) && (id in w.calls ==> IsNew(w.calls[id]))
    requires RunIs(w, runId, call.requestId, call.commandHash) && (call.phase.Waiting? || call.phase.SendFailed?)
    requires forall k :: k in w.calls ==> w.calls[k].runId != Some(runId)
    ensures Valid(w.(calls := w.calls[id := call.(runId := Some(runId))]))
  {
    var v := w.(calls := w.calls[id := call.(runId := Some(runId))]);
    forall r | r in v.tables.pending
      ensures WaiterOk(v, r)
    {
      assert WaiterOk(w, r);
    }
    forall k | k in v.calls
      ensures CallOk(v, k)
    {
      assert k != id ==> CallOk(w, k);
    }
    forall handler | handler in v.handlers
      ensures HandlerOk(v, handler)
    {
      assert HandlerOk(w, handler);
    }
  }

  lemma WaiterAdded(w: World, runId: string, waiter: Waiter)
    requires Valid(w) && runId !in w.tables.pending
    requires WaiterOk(w.(tables := w.tables.(pending := w.tables.pending[runId := waiter])), runId)
    requires forall k :: k in w.handlers && w.handlers[k].Holding? ==> w.handlers[k].runId != runId
    ensures Valid(w.(tables := w.tables.(pending := w.tables.pending[runId := waiter])))
  {
    var v := w.(tables := w.tables.(pending := w.tables.pending[runId := waiter]));
    forall r | r in v.tables.pending
      ensures WaiterOk(v, r)
    {
      assert r != runId ==> WaiterOk(w, r);
    }
    forall k | k in v.calls
      ensures CallOk(v, k)
    {
      assert CallOk(w, k);
    }
    forall k | k in v.handlers
      ensures HandlerOk(v, k)
    {
      assert HandlerOk(w, k);
    }
  }

  lemma NewRunIsUnused(w: World, runId: string)
    requires Valid(w) && runId !in w.tables.runs
    ensures forall k :: k in w.calls ==> w.calls[k].runId != Some(runId)
    ensures forall k :: k in w.handlers && w.handlers[k].Holding? ==> w.handlers[k].runId != runId
  {
    forall k | k in w.calls
      ensures w.calls[k].runId != Some(runId)
    {
      assert CallOk(w, k);
    }
    forall k | k in w.handlers && w.handlers[k].Holding?
      ensures w.handlers[k].runId != runId
    {
      assert HandlerOk(w, k);
    }
  }

  lemma ReadyKeeps(w: World, id: nat, call: Call, target: Target, runId: string, channelOpen: bool)
    requires Valid(w) && IsNew(call) && (id in w.calls ==> IsNew(w.calls[id])) && runId !in w.tables.runs
    ensures Valid(Dispatched(w, id, call, target, Ready, runId, channelOpen))
  {
    var run := Run(target.agentId, call.requestId, call.commandHash, None);
    var waiter := Waiter(target.agentId, call.requestId, call.commandHash, id);
    var out := call.(phase := if channelOpen then Waiting else SendFailed(target));
    var recorded := w.(tables := w.tables.(runs := w.tables.runs[runId := run]));
    var numbered := recorded.(calls := recorded.calls[id := out.(runId := Some(runId))]);
    hide Valid;
    PendingRunsExist(w);
    NewRunIsUnused(w, runId);
    DispatchGrows(w, id, call, target, Ready, runId, channelOpen);
    RunsChangeKeeps(w, recorded.tables.runs);
    RunAssigned(recorded, id, out, runId);
    var v := Dispatched(w, id, call, target, Ready, runId, channelOpen);
    if channelOpen {
      WaiterAdded(numbered, runId, waiter);
      SameTablesKeep(numbered.(tables := numbered.tables.(pending := numbered.tables.pending[runId := waiter])), v);
    } else {
      assert w.tables.pending - {runId} == w.tables.pending;
      SameTablesKeep(numbered, v);
    }
  }

  lemma DispatchedKeeps(w: World, id: nat, call: Call, target: Target, preflight: Preflight, runId: string,
                        channelOpen: bool)
    requires Valid(w) && IsNew(call) && (id in w.calls ==> IsNew(w.calls[id])) && runId !in w.tables.runs
    ensures Valid(Dispatched(w, id, call, target, preflight, runId, channelOpen))
  {
    match preflight {
      case Ready => ReadyKeeps(w, id, call, target, runId, channelOpen);
      case MustFlush => NewCallKeeps(w, id, call.(phase := Flushing(target)));
      case Broken => NewCallKeeps(w, id, call.(phase := Returned(None)));
    }
  }

  lemma RequestKeeps(w: World, id: nat, to: Option<string>, requestId: string, commandHash: string,
                     preflight: Preflight, runId: string, channelOpen: bool)
    requires Valid(w)
    ensures Valid(Next(w, Request(id, to, requestId, commandHash, preflight, runId, channelOpen)))
  {
    hide Valid, Resolved, Dispatched;
    if id !in w.calls && runId !in w.tables.runs {
      var call := Call(to.None?, requestId, commandHash, None, None, 0, Returned(None));
      if Resolved(w, to).Some? {
        DispatchedKeeps(w, id, call, Resolved(w, to).value, preflight, runId, channelOpen);
      } else {
        NewCallKeeps(w, id, call);
      }
    }
  }

  /** A call that is flushing has no run yet. */
  ghost predicate FlushingAreNew(w: World) {
    forall id :: id in w.calls && w.calls[id].phase.Flushing? ==> IsNew(w.calls[id])
  }

  lemma StepKeepsFlushing(w: World, step: Step)
    requires FlushingAreNew(w)
    ensures FlushingAreNew(Next(w, step))
  {
    hide AfterEvent, AfterReplace, AfterDisconnect, Resolved, AdmissionError, AfterStore, AfterReport, AfterTake,
         AfterSend, Dispatched;
    match step {
      case Request(id, to, requestId, commandHash, preflight, runId, channelOpen) =>
        var call := Call(to.None?, requestId, commandHash, None, None, 0, Returned(None));
        if id !in w.calls && runId !in w.tables.runs && Resolved(w, to).Some? {
          DispatchKeepsFlushing(w, id, call, Resolved(w, to).value, preflight, runId, channelOpen);
        }
      case Readmit(id, preflight, runId, channelOpen) =>
        if id in w.calls && w.calls[id].phase.Flushing? && runId !in w.tables.runs {
          DispatchKeepsFlushing(w, id, w.calls[id], w.calls[id].phase.target, preflight, runId, channelOpen);
        }
      case _ =>
    }
  }

  lemma DispatchKeepsFlushing(w: World, id: nat, call: Call, target: Target, preflight: Preflight, runId: string,
                              channelOpen: bool)
    requires FlushingAreNew(w) && IsNew(call)
    ensures FlushingAreNew(Dispatched(w, id, call, target, preflight, runId, channelOpen))
  {
    hide AfterSend;
  }

  lemma ReadmitKeeps(w: World, id: nat, preflight: Preflight, runId: string, channelOpen: bool)
    requires Valid(w) && FlushingAreNew(w)
    ensures Valid(Next(w, Readmit(id, preflight, runId, channelOpen)))
  {
    hide Valid, Dispatched, AdmissionError;
    if id in w.calls && w.calls[id].phase.Flushing? && runId !in w.tables.runs {
      var target := w.calls[id].phase.target;
      if AdmissionError(w.hub, target).Some? {
        NewCallKeeps(w, id, w.calls[id].(phase := Returned(None)));
      } else {
        DispatchedKeeps(w, id, w.calls[id], target, preflight, runId, channelOpen);
      }
    }
  }

  lemma StepKeeps(w: World, step: Step)
    requires Valid(w) && FlushingAreNew(w)
    ensures Valid(Next(w, step)) && FlushingAreNew(Next(w, step))
  {
    StepKeepsFlushing(w, step);
    hide Valid, FlushingAreNew, Next;
    match step {
      case HubStep(event) => HubEventStep(w, event);
      case Request(id, to, requestId, commandHash, preflight, runId, channelOpen) =>
        RequestKeeps(w, id, to, requestId, commandHash, preflight, runId, channelOpen);
      case Readmit(id, preflight, runId, channelOpen) => ReadmitKeeps(w, id, preflight, runId, channelOpen);
      case DropTarget(id) => DropTargetKeeps(w, id);
      case Response(handler, agentId, runId, requestId, value) =>
        ResponseKeeps(w, handler, agentId, runId, requestId, value);
      case Take(handler) => TakeKeeps(w, handler);
      case Deliver(handler) => DeliverKeeps(w, handler);
      case Wake(id, accepted) => WakeKeeps(w, id, accepted);
      case TimeOut(id) => TimeOutKeeps(w, id);
      case RemoveWaiter(id) => RemoveWaiterKeeps(w, id);
      case Report(agentId, runId, requestId, commandHash, result) =>
        ReportKeeps(w, agentId, runId, requestId, commandHash, result);
    }
  }

  lemma HubEventStep(w: World, e: Event)
    requires Valid(w)
    ensures Valid(Next(w, HubStep(e)))
  {
    HubEventKeeps(w, e);
  }

  lemma {:induction false} RunsKeep(w: World, steps: seq<Step>)
    requires Valid(w) && FlushingAreNew(w)
    ensures Valid(After(w, steps)) && FlushingAreNew(After(w, steps))
            && RunsGrow(w.tables.runs, After(w, steps).tables.runs)
    decreases |steps|
  {
    hide Valid, FlushingAreNew, Next, RunsGrow;
    if steps == [] {
      RunsGrowReflexive(w.tables.runs);
    } else {
      StepKeeps(w, steps[0]);
      StepGrowsRuns(w, steps[0]);
      RunsKeep(Next(w, steps[0]), steps[1..]);
      RunsGrowTransitive(w.tables.runs, Next(w, steps[0]).tables.runs, After(w, steps).tables.runs);
    }
  }

  lemma StartIsValid()
    ensures Valid(EMPTY_WORLD) && FlushingAreNew(EMPTY_WORLD)
  {
  }

  /** Every interleaving of requests, duplicate, conflicting and late responses, reports and
      timeouts: a call that returns a value returns the result on record for its own run, which
      was made for its own request; it was woken at most once, and has left no waiter behind. */
  lemma ResponsesAgree(steps: seq<Step>, id: nat)
    requires id in After(EMPTY_WORLD, steps).calls
    ensures var w := After(EMPTY_WORLD, steps);
      var call := w.calls[id];
      && call.wakes <= 1
      && (call.phase.Returned? ==> forall runId :: runId in w.tables.pending ==> w.tables.pending[runId].call != id)
      && (call.phase.Returned? && call.phase.value.Some? ==>
            && call.runId.Some? && HasResult(w, call.runId.value, call.phase.value.value)
            && RunIs(w, call.runId.value, call.requestId, call.commandHash))
  {
    StartIsValid();
    RunsKeep(EMPTY_WORLD, steps);
    var w := After(EMPTY_WORLD, steps);
    assert CallOk(w, id);
    if w.calls[id].phase.Returned? {
      NoWaiterUnless(w, id);
    }
  }

  /** The result on record is the first: once a run has one, no continuation of the run can
      make its call return anything else. */
  lemma FirstResultWins(before: seq<Step>, after: seq<Step>, id: nat, runId: string, value: string)
    requires HasResult(After(EMPTY_WORLD, before), runId, value)
    requires var w := After(After(EMPTY_WORLD, before), after);
      IsRunOf(w, id, runId) && w.calls[id].phase.Returned? && w.calls[id].phase.value.Some?
    ensures After(After(EMPTY_WORLD, before), after).calls[id].phase.value == Some(value)
  {
    StartIsValid();
    RunsKeep(EMPTY_WORLD, before);
    var v := After(EMPTY_WORLD, before);
    RunsKeep(v, after);
    var w := After(v, after);
    assert RunGrows(v.tables.runs, w.tables.runs, runId);
    assert CallOk(w, id);
  }

  predicate HasReturned(w: World, id: nat) {
    id in w.calls && w.calls[id].phase.Returned?
  }

  lemma StepKeepsReturned(w: World, step: Step, id: nat)
    requires HasReturned(w, id)
    ensures HasReturned(Next(w, step), id) && Next(w, step).calls[id] == w.calls[id]
  {
    hide AfterStore, AfterTake, AfterSend, AfterReport, AfterDisconnect, Resolved, AdmissionError;
  }

  lemma {:induction false} RunKeepsReturned(w: World, steps: seq<Step>, id: nat)
    requires HasReturned(w, id)
    ensures HasReturned(After(w, steps), id) && After(w, steps).calls[id] == w.calls[id]
    decreases |steps|
  {
    hide Next;
    if steps != [] {
      StepKeepsReturned(w, steps[0], id);
      RunKeepsReturned(Next(w, steps[0]), steps[1..], id);
    }
  }

  /** A call answers once: whatever responses still come in for it, late, duplicate or conflicting,
      a call that has returned, by a timeout too, keeps its answer and has no waiter any more. */
  lemma ReturnedIsFinal(before: seq<Step>, after: seq<Step>, id: nat)
    requires HasReturned(After(EMPTY_WORLD, before), id)
    ensures var w, v := After(EMPTY_WORLD, before), After(After(EMPTY_WORLD, before), after);
      && HasReturned(v, id) && v.calls[id] == w.calls[id]
      && forall runId :: runId in v.tables.pending ==> v.tables.pending[runId].call != id
  {
    hide Next, Valid;
    StartIsValid();
    RunsKeep(EMPTY_WORLD, before);
    var w := After(EMPTY_WORLD, before);
    RunsKeep(w, after);
    RunKeepsReturned(w, after, id);
    NoWaiterUnless(After(w, after), id);
  }

  /** The owner-mismatch answer is unreachable. */
  lemma OwnerNeverMismatches(steps: seq<Step>, handler: nat)
    requires handler in After(EMPTY_WORLD, steps).handlers && After(EMPTY_WORLD, steps).handlers[handler].Matched?
    ensures var w := After(EMPTY_WORLD, steps);
      var h := w.handlers[handler];
      !AfterTake(w.tables.pending, h.agentId, h.runId, h.requestId, h.commandHash).1.OwnerMismatch?
  {
    hide Valid;
    StartIsValid();
    RunsKeep(EMPTY_WORLD, steps);
    OwnerMatches(After(EMPTY_WORLD, steps), handler);
  }
}
