/** That results are stored and reach their callers: what one response, report or send does, and that a
    waiting call returns the first result of its run. */
module HubResponses {
  import opened Text
  import opened HubConnections
  import opened HubRuns
  import opened HubAdmission
  import opened HubDispatch
  import opened HubRequests

  // ---------------------------------------------------------------- the connections meanwhile

  /** What the step is for the connection map: a failed send drops its target, and nothing else a request or
      a response does touches connections. */
  function EventsOf(w: World, step: Step): seq<Event> {
    match step
    case HubStep(event) => [event]
    case DropTarget(id) =>
      if id in w.calls && w.calls[id].phase.SendFailed? then
        [Disconnect(w.calls[id].phase.target.agentId, w.calls[id].phase.target.connectionId, None)]
      else []
    case _ => []
  }

  function HubEvents(w: World, steps: seq<Step>): seq<Event>
    decreases |steps|
  {
    if steps == [] then [] else EventsOf(w, steps[0]) + HubEvents(Next(w, steps[0]), steps[1..])
  }

  lemma StepFollows(w: World, step: Step)
    ensures Next(w, step).hub == AfterEvents(w.hub, EventsOf(w, step))
  {
    hide AfterReplace, AfterHello, AfterDisconnect, Resolved, AdmissionError, AfterStore, AfterReport, AfterTake,
         AfterSend;
    var events := EventsOf(w, step);
    if events != [] {
      assert AfterEvents(AfterEvent(w.hub, events[0]), events[1..]) == AfterEvent(w.hub, events[0]);
    }
  }

  lemma {:induction false} EventsConcat(s: Hub, a: seq<Event>, b: seq<Event>)
    ensures AfterEvents(s, a + b) == AfterEvents(AfterEvents(s, a), b)
    decreases |a|
  {
    hide AfterEvent;
    if a == [] {
      assert a + b == b;
    } else {
      assert (a + b)[1..] == a[1..] + b;
      EventsConcat(AfterEvent(s, a[0]), a[1..], b);
    }
  }

  /** However requests and responses run in between, the connections are what their own events make of them;
      so what holds in every run of the connections holds in every run of the whole. */
  lemma {:induction false} HubFollows(w: World, steps: seq<Step>)
    ensures After(w, steps).hub == AfterEvents(w.hub, HubEvents(w, steps))
    decreases |steps|
  {
    hide Next, EventsOf, AfterEvent;
    if steps != [] {
      StepFollows(w, steps[0]);
      HubFollows(Next(w, steps[0]), steps[1..]);
      EventsConcat(w.hub, EventsOf(w, steps[0]), HubEvents(Next(w, steps[0]), steps[1..]));
    }
  }

  // ---------------------------------------------------------------- one step of the tables

  predicate RunOf(runs: map<string, Run>, agentId: string, runId: string, requestId: string) {
    runId in runs && runs[runId].agentId == agentId && runs[runId].requestId == requestId
  }

  /** Nothing about other runs changes, and of this one only the result. */
  ghost predicate OnlyResult(runs: map<string, Run>, after: map<string, Run>, runId: string, result: Option<string>) {
    && (forall k :: k in after <==> k in runs)
    && (forall k :: k in runs && k != runId ==> after[k] == runs[k])
    && runId in after && runId in runs && after[runId].result == result
    && after[runId].agentId == runs[runId].agentId && after[runId].requestId == runs[runId].requestId
    && after[runId].commandHash == runs[runId].commandHash
  }

  /** Unmatched, stored, duplicate or conflicting, by the run on record. */
  lemma StoreOutcomes(runs: map<string, Run>, agentId: string, runId: string, requestId: string, value: string)
    ensures var (after, outcome) := AfterStore(runs, agentId, runId, requestId, value);
      if !RunOf(runs, agentId, runId, requestId) then outcome == Unmatched && after == runs
      else
        var run := runs[runId];
        match run.result
        case None => outcome == Stored(run.commandHash) && OnlyResult(runs, after, runId, Some(value))
        case Some(result) =>
          after == runs && outcome == if result == value then Duplicate(run.commandHash) else Conflict
  {
  }

  /** A waiter is handed out, and then gone, if and only if it is for this agent, request and command. */
  lemma TakeOutcomes(pending: map<string, Waiter>, agentId: string, runId: string, requestId: string,
                     commandHash: string)
    ensures var (after, taken) := AfterTake(pending, agentId, runId, requestId, commandHash);
      && (taken.NoWaiter? <==> runId !in pending)
      && (taken.Took? <==>
            && runId in pending && pending[runId].agentId == agentId && pending[runId].requestId == requestId
            && pending[runId].commandHash == commandHash)
      && (taken.Took? ==> taken.call == pending[runId].call && runId !in after)
      && (!taken.Took? ==> after == pending)
      && (forall k :: k != runId ==> (k in after <==> k in pending) && (k in pending ==> after[k] == pending[k]))
  {
  }

  /** After a send its run is on record without a result, and its waiter stands if and only if it went out. */
  lemma SendOutcomes(t: Tables, runId: string, run: Run, call: nat, sendOk: bool)
    ensures var v := AfterSend(t, runId, run, call, sendOk);
      && runId in v.runs && v.runs[runId] == run
      && (runId in v.pending <==> sendOk)
      && (sendOk ==> v.pending[runId] == Waiter(run.agentId, run.requestId, run.commandHash, call))
      && (forall k :: k != runId ==>
            && (k in v.runs <==> k in t.runs) && (k in t.runs ==> v.runs[k] == t.runs[k])
            && (k in v.pending <==> k in t.pending) && (k in t.pending ==> v.pending[k] == t.pending[k]))
  {
  }

  /** A report adds an unknown run, or the result of a known one that has none, and nothing else. */
  lemma ReportOutcomes(runs: map<string, Run>, agentId: string, runId: string, requestId: string, commandHash: string,
                       result: Option<string>)
    ensures var after := AfterReport(runs, agentId, runId, requestId, commandHash, result);
      if runId !in runs then after == runs[runId := Run(agentId, requestId, commandHash, result)]
      else if RunOf(runs, agentId, runId, requestId) && runs[runId].result.None? then
        OnlyResult(runs, after, runId, result)
      else after == runs
  {
  }

  // ---------------------------------------------------------------- a result reaches its caller

  /** The call waits for this run, which has no result yet, and has not been woken. */
  predicate Awaits(w: World, id: nat, agentId: string, runId: string, requestId: string) {
    && IsRunOf(w, id, runId) && w.calls[id].phase.Waiting? && w.calls[id].mail == None
    && runId in w.tables.pending && w.tables.pending[runId].call == id
    && RunOf(w.tables.runs, agentId, runId, requestId) && w.tables.runs[runId].result == None
  }

  /** The step neither ends the call's wait nor handles a response of its run. */
  predicate LeavesCall(step: Step, id: nat, runId: string, handler: nat) {
    match step
    case TimeOut(call) => call != id
    case Wake(call, _) => call != id
    case Response(_, _, run, _, _) => run != runId
    case Take(h) => h != handler
    case Deliver(h) => h != handler
    case _ => true
  }

  /** No other handler is busy with this run. */
  ghost predicate Alone(w: World, runId: string, handler: nat) {
    forall h :: h in w.handlers && h != handler ==>
      match w.handlers[h]
      case Matched(_, run, _, _, _) => run != runId
      case Holding(_, run, _) => run != runId
      case Finished => true
  }

  /** How far the handling of the response has come. */
  datatype Stage = Accepted | Taken | Delivered

  ghost predicate At(w: World, stage: Stage, id: nat, runId: string, handler: nat, value: string) {
    && Valid(w) && FlushingAreNew(w) && Alone(w, runId, handler) && handler in w.handlers
    && runId in w.tables.runs
    && IsRunOf(w, id, runId) && w.calls[id].phase.Waiting?
    && match stage
       case Accepted =>
         && w.handlers[handler].Matched? && w.handlers[handler].runId == runId && w.handlers[handler].value == value
         && runId in w.tables.pending && w.tables.pending[runId].call == id && w.calls[id].mail == None
       case Taken => w.handlers[handler] == Holding(id, runId, value) && w.calls[id].mail == None
       case Delivered => w.calls[id].mail == Some(value)
  }

  lemma NoneHandles(w: World, runId: string, handler: nat)
    requires Valid(w) && runId in w.tables.runs && w.tables.runs[runId].result == None
    ensures Alone(w, runId, handler)
  {
    forall h | h in w.handlers && h != handler
      ensures match w.handlers[h]
        case Matched(_, run, _, _, _) => run != runId
        case Holding(_, run, _) => run != runId
        case Finished => true
    {
      assert HandlerOk(w, h);
    }
  }

  lemma ResponseAccepted(w: World, id: nat, handler: nat, agentId: string, runId: string, requestId: string,
                         value: string)
    requires Valid(w) && FlushingAreNew(w) && Awaits(w, id, agentId, runId, requestId) && handler !in w.handlers
    ensures At(Next(w, Response(handler, agentId, runId, requestId, value)), Accepted, id, runId, handler, value)
  {
    var step := Response(handler, agentId, runId, requestId, value);
    NoneHandles(w, runId, handler);
    StepKeeps(w, step);
    hide Valid;
  }

  /** Once the value is there, the timer may go off too. */
  predicate Harmless(step: Step, stage: Stage, id: nat, runId: string, handler: nat) {
    LeavesCall(step, id, runId, handler) || (stage.Delivered? && step == TimeOut(id))
  }

  lemma StageStays(w: World, step: Step, stage: Stage, id: nat, runId: string, handler: nat, value: string)
    requires At(w, stage, id, runId, handler, value) && Harmless(step, stage, id, runId, handler)
    ensures At(Next(w, step), stage, id, runId, handler, value)
  {
    if step == TimeOut(id) {
      TooLate(w, id, runId, handler, value);
    } else {
      StepKeeps(w, step);
      AloneStays(w, step, runId, handler);
      CallStays(w, step, stage, id, runId, handler, value);
      hide Valid, FlushingAreNew, Alone, Next;
    }
  }

  lemma TooLate(w: World, id: nat, runId: string, handler: nat, value: string)
    requires At(w, Delivered, id, runId, handler, value)
    ensures Next(w, TimeOut(id)) == w
  {
    hide Valid, FlushingAreNew, Alone;
  }

  lemma AloneStays(w: World, step: Step, runId: string, handler: nat)
    requires Alone(w, runId, handler)
    requires step.Response? ==> step.runId != runId
    ensures Alone(Next(w, step), runId, handler)
  {
    hide AfterEvent, AfterReplace, AfterDisconnect, Resolved, AdmissionError, AfterStore, AfterReport, AfterSend;
  }

  lemma CallStays(w: World, step: Step, stage: Stage, id: nat, runId: string, handler: nat, value: string)
    requires At(w, stage, id, runId, handler, value) && LeavesCall(step, id, runId, handler)
    ensures var v := Next(w, step);
      && handler in v.handlers && v.handlers[handler] == w.handlers[handler] && runId in v.tables.runs
      && id in v.calls && v.calls[id] == w.calls[id]
      && (stage.Accepted? ==> runId in v.tables.pending && v.tables.pending[runId].call == id)
  {
    assert CallOk(w, id);
    HandlerStays(w, step, handler);
    RunStays(w, step, runId);
    hide Next, FlushingAreNew;
    CallKept(w, step, stage, id, runId, handler, value);
    if stage.Accepted? {
      WaiterStays(w, step, id, runId, handler, value);
    }
  }

  lemma HandlerStays(w: World, step: Step, handler: nat)
    requires handler in w.handlers && step != Take(handler) && step != Deliver(handler)
    ensures var v := Next(w, step);
      handler in v.handlers && v.handlers[handler] == w.handlers[handler]
  {
    hide AfterEvent, AfterReplace, AfterDisconnect, Resolved, AdmissionError, AfterStore, AfterReport, AfterSend,
         AfterTake;
  }

  lemma RunStays(w: World, step: Step, runId: string)
    requires runId in w.tables.runs
    ensures runId in Next(w, step).tables.runs
  {
    hide Next;
    StepGrowsRuns(w, step);
    assert RunGrows(w.tables.runs, Next(w, step).tables.runs, runId);
  }

  lemma CallKept(w: World, step: Step, stage: Stage, id: nat, runId: string, handler: nat, value: string)
    requires At(w, stage, id, runId, handler, value) && LeavesCall(step, id, runId, handler)
    ensures var v := Next(w, step);
      id in v.calls && v.calls[id] == w.calls[id]
  {
    NotDelivered(w, step, stage, id, runId, handler, value);
    hide Valid, FlushingAreNew, Next, DeliversTo;
    WaitingKept(w, step, id);
  }

  lemma NotDelivered(w: World, step: Step, stage: Stage, id: nat, runId: string, handler: nat, value: string)
    requires At(w, stage, id, runId, handler, value) && LeavesCall(step, id, runId, handler)
    ensures !DeliversTo(w, step, id)
  {
    hide FlushingAreNew, Next, WaiterOk, CallOk, HoldSame;
    if step.Deliver? && step.handler in w.handlers && w.handlers[step.handler].Holding? {
      assert HandlerOk(w, step.handler);
    }
  }

  predicate DeliversTo(w: World, step: Step, id: nat) {
    step.Deliver? && step.handler in w.handlers && w.handlers[step.handler].Holding?
    && w.handlers[step.handler].call == id
  }

  lemma WaitingKept(w: World, step: Step, id: nat)
    requires id in w.calls && w.calls[id].phase.Waiting? && !DeliversTo(w, step, id)
    requires step.TimeOut? ==> step.call != id
    requires step.Wake? ==> step.call != id
    ensures var v := Next(w, step);
      id in v.calls && v.calls[id] == w.calls[id]
  {
    hide AfterEvent, AfterReplace, AfterDisconnect, Resolved, AdmissionError, AfterStore, AfterReport, AfterSend,
         AfterTake, Dispatched;
    if step.Request? && step.call !in w.calls && Resolved(w, step.to).Some? {
      var call := Call(step.to.None?, step.requestId, step.commandHash, None, None, 0, Returned(None));
      DispatchedElsewhere(w, step.call, call, Resolved(w, step.to).value, step.preflight, step.runId,
                          step.channelOpen, id);
    }
    if step.Readmit? && step.call in w.calls && w.calls[step.call].phase.Flushing? {
      var call := w.calls[step.call];
      DispatchedElsewhere(w, step.call, call, call.phase.target, step.preflight, step.runId, step.channelOpen, id);
    }
  }

  lemma DispatchedElsewhere(w: World, id: nat, call: Call, target: Target, preflight: Preflight, runId: string,
                            channelOpen: bool, other: nat)
    requires other in w.calls && other != id
    ensures var v := Dispatched(w, id, call, target, preflight, runId, channelOpen);
      other in v.calls && v.calls[other] == w.calls[other]
  {
    hide AfterSend;
  }

  lemma WaiterStays(w: World, step: Step, id: nat, runId: string, handler: nat, value: string)
    requires At(w, Accepted, id, runId, handler, value) && LeavesCall(step, id, runId, handler)
    ensures var v := Next(w, step);
      runId in v.tables.pending && v.tables.pending[runId].call == id
  {
    WaiterUntouched(w, step, id, runId, handler, value);
    hide At, Valid;
    PendingKept(w, step, runId);
  }

  /** The step takes the waiter of this run away. */
  predicate RemovesWaiter(w: World, step: Step, runId: string) {
    || (step.RemoveWaiter? && step.call in w.calls && w.calls[step.call].phase.TimedOut?
        && w.calls[step.call].runId == Some(runId))
    || (step.Take? && step.handler in w.handlers && w.handlers[step.handler].Matched?
        && w.handlers[step.handler].runId == runId)
  }

  lemma WaiterUntouched(w: World, step: Step, id: nat, runId: string, handler: nat, value: string)
    requires At(w, Accepted, id, runId, handler, value) && LeavesCall(step, id, runId, handler)
    ensures !RemovesWaiter(w, step, runId)
  {
    hide FlushingAreNew, HoldSame, WaiterOk, CallOk, HandlerOk;
  }

  lemma PendingKept(w: World, step: Step, runId: string)
    requires runId in w.tables.pending && runId in w.tables.runs && !RemovesWaiter(w, step, runId)
    ensures var v := Next(w, step);
      runId in v.tables.pending && v.tables.pending[runId] == w.tables.pending[runId]
  {
    hide AfterEvent, AfterReplace, AfterDisconnect, Resolved, AdmissionError, AfterStore, AfterReport, AfterTake,
         Dispatched, AfterSend;
    if step.Request? && step.runId !in w.tables.runs && Resolved(w, step.to).Some? {
      var call := Call(step.to.None?, step.requestId, step.commandHash, None, None, 0, Returned(None));
      DispatchedAside(w, step.call, call, Resolved(w, step.to).value, step.preflight, step.runId, step.channelOpen,
                      runId);
    }
    if step.Readmit? && step.runId !in w.tables.runs && step.call in w.calls && w.calls[step.call].phase.Flushing? {
      var call := w.calls[step.call];
      DispatchedAside(w, step.call, call, call.phase.target, step.preflight, step.runId, step.channelOpen, runId);
    }
    if step.Take? && step.handler in w.handlers && w.handlers[step.handler].Matched? {
      var h := w.handlers[step.handler];
      TakenAside(w.tables.pending, h.agentId, h.runId, h.requestId, h.commandHash, runId);
    }
  }

  lemma DispatchedAside(w: World, id: nat, call: Call, target: Target, preflight: Preflight, runId: string,
                        channelOpen: bool, other: string)
    requires other in w.tables.pending && other != runId
    ensures var v := Dispatched(w, id, call, target, preflight, runId, channelOpen);
      other in v.tables.pending && v.tables.pending[other] == w.tables.pending[other]
  {
  }

  lemma TakenAside(pending: map<string, Waiter>, agentId: string, runId: string, requestId: string,
                   commandHash: string, other: string)
    requires other in pending && other != runId
    ensures var after := AfterTake(pending, agentId, runId, requestId, commandHash).0;
      other in after && after[other] == pending[other]
  {
  }

  lemma {:induction false} StageLasts(w: World, steps: seq<Step>, stage: Stage, id: nat, runId: string, handler: nat,
                                      value: string)
    requires At(w, stage, id, runId, handler, value)
    requires forall i :: 0 <= i < |steps| ==> Harmless(steps[i], stage, id, runId, handler)
    ensures At(After(w, steps), stage, id, runId, handler, value)
    decreases |steps|
  {
    hide At, Harmless, Next;
    if steps != [] {
      StageStays(w, steps[0], stage, id, runId, handler, value);
      StageLasts(Next(w, steps[0]), steps[1..], stage, id, runId, handler, value);
    }
  }

  lemma TakeAdvances(w: World, id: nat, runId: string, handler: nat, value: string)
    requires At(w, Accepted, id, runId, handler, value)
    ensures At(Next(w, Take(handler)), Taken, id, runId, handler, value)
  {
    var h := w.handlers[handler];
    assert HandlerOk(w, handler) && WaiterOk(w, runId);
    StepKeeps(w, Take(handler));
    TakeOutcomes(w.tables.pending, h.agentId, h.runId, h.requestId, h.commandHash);
    AloneStays(w, Take(handler), runId, handler);
    hide Valid, FlushingAreNew, Alone, AfterTake;
  }

  lemma DeliverAdvances(w: World, id: nat, runId: string, handler: nat, value: string)
    requires At(w, Taken, id, runId, handler, value)
    ensures At(Next(w, Deliver(handler)), Delivered, id, runId, handler, value)
  {
    StepKeeps(w, Deliver(handler));
    AloneStays(w, Deliver(handler), runId, handler);
    hide Valid, FlushingAreNew, Alone;
  }

  /** A call that waits returns the first result of its run: once a response with it is stored, the waiter
      taken and the value handed over, whatever else happens in between that does not end the wait or
      handle the same run. A timer that goes off behind the delivery is too late. */
  lemma FirstResponseReturns(before: seq<Step>, id: nat, handler: nat, agentId: string, runId: string,
                             requestId: string, value: string, a: seq<Step>, b: seq<Step>, c: seq<Step>)
    requires Awaits(After(EMPTY_WORLD, before), id, agentId, runId, requestId)
    requires handler !in After(EMPTY_WORLD, before).handlers
    requires forall step :: step in a + b ==> LeavesCall(step, id, runId, handler)
    requires forall step :: step in c ==> LeavesCall(step, id, runId, handler) || step == TimeOut(id)
    ensures var w := After(Next(After(EMPTY_WORLD, before), Response(handler, agentId, runId, requestId, value)), a);
      var v := Next(After(Next(After(Next(w, Take(handler)), b), Deliver(handler)), c), Wake(id, true));
      id in v.calls && v.calls[id].phase == Returned(Some(value))
  {
    hide Valid, Next, LeavesCall, Alone, FlushingAreNew, After, Awaits;
    StartIsValid();
    RunsKeep(EMPTY_WORLD, before);
    var w := After(EMPTY_WORLD, before);
    ResponseAccepted(w, id, handler, agentId, runId, requestId, value);
    Parts(a, b);
    var w1 := Next(w, Response(handler, agentId, runId, requestId, value));
    StageLasts(w1, a, Accepted, id, runId, handler, value);
    TakeAdvances(After(w1, a), id, runId, handler, value);
    var w2 := Next(After(w1, a), Take(handler));
    StageLasts(w2, b, Taken, id, runId, handler, value);
    DeliverAdvances(After(w2, b), id, runId, handler, value);
    var w3 := Next(After(w2, b), Deliver(handler));
    StageLasts(w3, c, Delivered, id, runId, handler, value);
    WakeReturns(After(w3, c), id, runId, handler, value);
  }

  lemma Parts(a: seq<Step>, b: seq<Step>)
    ensures forall i :: 0 <= i < |a| ==> a[i] in a + b
    ensures forall i :: 0 <= i < |b| ==> b[i] in a + b
  {
    forall i | 0 <= i < |b|
      ensures b[i] in a + b
    {
      assert (a + b)[|a| + i] == b[i];
    }
  }

  lemma WakeReturns(w: World, id: nat, runId: string, handler: nat, value: string)
    requires At(w, Delivered, id, runId, handler, value)
    ensures var v := Next(w, Wake(id, true));
      id in v.calls && v.calls[id].phase == Returned(Some(value))
  {
    hide Valid, Alone, FlushingAreNew;
  }

  // ---------------------------------------------------------------- a call and its ends

  /** The call went out to this target and waits for a run of its own; or it was given up before. */
  ghost predicate WentOut(w: World, v: World, id: nat, room: bool, requestId: string, commandHash: string,
                          target: Target, runId: string)
  {
    && Awaits(v, id, target.agentId, runId, requestId)
    && v.calls[id] == Call(room, requestId, commandHash, Some(runId), None, 0, Waiting)
    && v.tables.runs[runId].commandHash == commandHash && v.sent == w.sent + [Sent(room, target, w.hub)]
  }

  ghost predicate NotSent(w: World, v: World, id: nat, phase: Phase) {
    && id in v.calls && v.calls[id].phase == phase && v.sent == w.sent && v.tables.pending == w.tables.pending
  }

  lemma SentOut(w: World, id: nat, call: Call, target: Target, runId: string)
    requires IsNew(call)
    ensures WentOut(w, Dispatched(w, id, call, target, Ready, runId, true), id, call.room, call.requestId,
                    call.commandHash, target, runId)
  {
    SendOutcomes(w.tables, runId, Run(target.agentId, call.requestId, call.commandHash, None), id, true);
    hide AfterSend;
  }

  lemma SendFails(w: World, id: nat, call: Call, target: Target, runId: string)
    requires runId !in w.tables.pending
    ensures NotSent(w, Dispatched(w, id, call, target, Ready, runId, false), id, SendFailed(target))
  {
    SendUnsent(w.tables, runId, Run(target.agentId, call.requestId, call.commandHash, None), id);
    DropAbsent(w.tables.pending, runId);
    hide AfterSend;
  }

  /** What one pass of the loop leads to, as preflight and channel have it. */
  ghost predicate Passed(w: World, v: World, id: nat, call: Call, target: Target, preflight: Preflight, runId: string,
                         channelOpen: bool)
  {
    && v.hub == w.hub
    && match preflight
       case Broken => NotSent(w, v, id, Returned(None)) && v.tables == w.tables
       case MustFlush => NotSent(w, v, id, Flushing(target)) && v.tables == w.tables
       case Ready =>
         if channelOpen then WentOut(w, v, id, call.room, call.requestId, call.commandHash, target, runId)
         else NotSent(w, v, id, SendFailed(target))
  }

  /** What one pass of the request loop makes of a new call: sent and awaited, failed to be sent, held back
      where feedback must be flushed first, or given up where feedback is broken. */
  lemma DispatchOutcomes(w: World, id: nat, call: Call, target: Target, preflight: Preflight, runId: string,
                         channelOpen: bool)
    requires IsNew(call) && runId !in w.tables.pending
    ensures var v := Dispatched(w, id, call, target, preflight, runId, channelOpen);
      Passed(w, v, id, call, target, preflight, runId, channelOpen) && v.handlers == w.handlers
  {
    hide AfterSend, WentOut, NotSent, IsNew;
    if preflight.Ready? {
      SentOut(w, id, call, target, runId);
      SendFails(w, id, call, target, runId);
    } else {
      NotDispatched(w, id, call, target, runId, channelOpen);
    }
  }

  lemma NotDispatched(w: World, id: nat, call: Call, target: Target, runId: string, channelOpen: bool)
    ensures NotSent(w, Dispatched(w, id, call, target, Broken, runId, channelOpen), id, Returned(None))
    ensures NotSent(w, Dispatched(w, id, call, target, MustFlush, runId, channelOpen), id, Flushing(target))
    ensures Dispatched(w, id, call, target, Broken, runId, channelOpen).tables == w.tables
    ensures Dispatched(w, id, call, target, MustFlush, runId, channelOpen).tables == w.tables
  {
  }

  /** The target of a request: the named agent's current connection, greeted and taking commands; or the live
      Room's. */
  predicate RoutesTo(hub: Hub, to: Option<string>, target: Target) {
    match to
    case Some(agentId) =>
      && agentId in hub.current && hub.current[agentId].helloReceived && hub.current[agentId].mode == CommandCapable
      && target == Target(agentId, hub.current[agentId].connectionId, hub.current[agentId].channel, None)
    case None =>
      && IsLiveRoom(hub, target.agentId, target.connectionId)
      && target.channel == hub.current[target.agentId].channel && target.expectedRole == Some(Room)
  }

  lemma ResolvedIff(w: World, to: Option<string>, target: Target)
    requires LeaseMatches(w.hub)
    ensures RoutesTo(w.hub, to, target) <==> Resolved(w, to) == Some(target)
  {
    match to {
      case Some(agentId) => RoutingOutcome(w.hub, agentId);
      case None =>
        RoomOutcome(w.hub);
        OneLease(w.hub, target.agentId, target.connectionId);
    }
    hide LeaseMatches;
  }

  /** After any run, a request that can be routed nowhere returns without a value, sending nothing; any other
      goes through one pass of the loop to its target, as a new call. */
  lemma RequestOutcomes(before: seq<Step>, id: nat, to: Option<string>, requestId: string, commandHash: string,
                        preflight: Preflight, runId: string, channelOpen: bool)
    requires id !in After(EMPTY_WORLD, before).calls && runId !in After(EMPTY_WORLD, before).tables.runs
    ensures var w := After(EMPTY_WORLD, before);
      var v := Next(w, Request(id, to, requestId, commandHash, preflight, runId, channelOpen));
      && (forall target :: RoutesTo(w.hub, to, target) ==>
            Passed(w, v, id, Call(to.None?, requestId, commandHash, None, None, 0, Waiting), target, preflight, runId,
                   channelOpen))
      && ((forall target :: !RoutesTo(w.hub, to, target)) ==>
            NotSent(w, v, id, Returned(None)) && v.tables == w.tables && v.hub == w.hub)
  {
    var w := After(EMPTY_WORLD, before);
    StartIsValid();
    RunsKeep(EMPTY_WORLD, before);
    PendingRunsExist(w);
    HubFollows(EMPTY_WORLD, before);
    ReachedLease(HubEvents(EMPTY_WORLD, before));
    forall target
      ensures RoutesTo(w.hub, to, target) <==> Resolved(w, to) == Some(target)
    {
      ResolvedIff(w, to, target);
    }
    hide Valid, Resolved, RoutesTo, After, Passed;
    NewRequest(w, id, to, requestId, commandHash, preflight, runId, channelOpen);
  }

  lemma NewRequest(w: World, id: nat, to: Option<string>, requestId: string, commandHash: string,
                   preflight: Preflight, runId: string, channelOpen: bool)
    requires id !in w.calls && runId !in w.tables.runs && runId !in w.tables.pending
    ensures var v := Next(w, Request(id, to, requestId, commandHash, preflight, runId, channelOpen));
      match Resolved(w, to)
      case None => NotSent(w, v, id, Returned(None)) && v.tables == w.tables && v.hub == w.hub
      case Some(target) =>
        Passed(w, v, id, Call(to.None?, requestId, commandHash, None, None, 0, Waiting), target, preflight, runId,
               channelOpen)
  {
    hide Resolved, Dispatched, WentOut;
    var call := Call(to.None?, requestId, commandHash, None, None, 0, Returned(None));
    if Resolved(w, to).Some? {
      DispatchOutcomes(w, id, call, Resolved(w, to).value, preflight, runId, channelOpen);
    }
  }

  /** A call held back for a flush, when it is let go on: given up if its target is no longer admitted, else
      one more pass of the loop, to the very target it had. */
  lemma ReadmitOutcomes(before: seq<Step>, id: nat, preflight: Preflight, runId: string, channelOpen: bool)
    requires runId !in After(EMPTY_WORLD, before).tables.runs
    requires id in After(EMPTY_WORLD, before).calls && After(EMPTY_WORLD, before).calls[id].phase.Flushing?
    ensures var w := After(EMPTY_WORLD, before);
      var v, target := Next(w, Readmit(id, preflight, runId, channelOpen)), w.calls[id].phase.target;
      if AdmissionError(w.hub, target).Some? then
        NotSent(w, v, id, Returned(None)) && v.tables == w.tables && v.hub == w.hub
      else Passed(w, v, id, w.calls[id], target, preflight, runId, channelOpen)
  {
    hide Valid, FlushingAreNew, AdmissionError, Passed, NotSent, Next, After;
    StartIsValid();
    RunsKeep(EMPTY_WORLD, before);
    Readmitted(After(EMPTY_WORLD, before), id, preflight, runId, channelOpen);
  }

  lemma Readmitted(w: World, id: nat, preflight: Preflight, runId: string, channelOpen: bool)
    requires Valid(w) && FlushingAreNew(w) && runId !in w.tables.runs
    requires id in w.calls && w.calls[id].phase.Flushing?
    ensures var v, target := Next(w, Readmit(id, preflight, runId, channelOpen)), w.calls[id].phase.target;
      if AdmissionError(w.hub, target).Some? then
        NotSent(w, v, id, Returned(None)) && v.tables == w.tables && v.hub == w.hub
      else Passed(w, v, id, w.calls[id], target, preflight, runId, channelOpen)
  {
    PendingRunsExist(w);
    ReadmitStep(w, id, preflight, runId, channelOpen);
    hide Valid, AdmissionError, Dispatched, WentOut, IsNew, Next;
    DispatchOutcomes(w, id, w.calls[id], w.calls[id].phase.target, preflight, runId, channelOpen);
  }

  lemma ReadmitStep(w: World, id: nat, preflight: Preflight, runId: string, channelOpen: bool)
    requires runId !in w.tables.runs && id in w.calls && w.calls[id].phase.Flushing?
    ensures var call := w.calls[id];
      Next(w, Readmit(id, preflight, runId, channelOpen)) ==
        if AdmissionError(w.hub, call.phase.target).Some? then
          w.(calls := w.calls[id := call.(phase := Returned(None))])
        else Dispatched(w, id, call, call.phase.target, preflight, runId, channelOpen)
  {
    hide AdmissionError, Dispatched;
  }

  /** The end of a wait, step by step. The timer ends it only while there is no value; a value ends it once
      the caller is awake, and is turned into nothing where the feedback bookkeeping fails. Neither touches
      anything but the call. */
  lemma WaitOutcomes(w: World, id: nat, accepted: bool)
    requires id in w.calls && w.calls[id].phase.Waiting?
    ensures var mail, late, woken := w.calls[id].mail, Next(w, TimeOut(id)), Next(w, Wake(id, accepted));
      match mail
      case None => woken == w && OnlyPhase(w, late, id, TimedOut)
      case Some(value) => late == w && OnlyPhase(w, woken, id, Returned(if accepted then Some(value) else None))
  {
  }

  ghost predicate OnlyPhase(w: World, v: World, id: nat, phase: Phase)
    requires id in w.calls
  {
    && v.hub == w.hub && v.tables == w.tables && v.handlers == w.handlers && v.sent == w.sent && v.latest == w.latest
    && id in v.calls && v.calls[id] == w.calls[id].(phase := phase)
    && forall other :: other != id ==>
         (other in v.calls <==> other in w.calls) && (other in w.calls ==> v.calls[other] == w.calls[other])
  }

  /** A call whose send failed or whose time ran out returns without a value; only a failed send drops the
      connection it was meant for. */
  lemma GivenUp(w: World, id: nat)
    requires Valid(w) && id in w.calls
    ensures w.calls[id].phase.SendFailed? ==>
      var v, target := Next(w, DropTarget(id)), w.calls[id].phase.target;
      id in v.calls && v.calls[id].phase == Returned(None) && !v.hub.IsCurrent(target.agentId, target.connectionId)
    ensures w.calls[id].phase.Waiting? && w.calls[id].mail.None? ==>
      var v := Next(Next(w, TimeOut(id)), RemoveWaiter(id));
      && id in v.calls && v.calls[id].phase == Returned(None) && v.hub == w.hub
      && w.calls[id].runId.Some? && w.calls[id].runId.value !in v.tables.pending
  {
    assert CallOk(w, id);
    hide Valid;
  }

  lemma DropAbsent(pending: map<string, Waiter>, runId: string)
    requires runId !in pending
    ensures pending - {runId} == pending
  {
  }

  lemma SendUnsent(t: Tables, runId: string, run: Run, call: nat)
    ensures AfterSend(t, runId, run, call, false).pending == t.pending - {runId}
  {
  }
}
