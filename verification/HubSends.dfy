/** Where commands go: every send reaches a connection that is current and ready when it leaves. */
module HubSends {
  import opened Text
  import opened HubConnections
  import opened HubRuns
  import opened HubDispatch
  import opened HubRequests

  /** At the moment of the send the target is the agent's current connection, greeted and
      command-capable; a Room command goes to the holder of the lease. */
  predicate SentOk(sent: Sent) {
    var t, hub := sent.target, sent.hub;
    && hub.IsCurrent(t.agentId, t.connectionId)
    && hub.current[t.agentId].helloReceived && hub.current[t.agentId].mode == CommandCapable
    && (sent.room ==> hub.activeRoom == Some(ActiveRoom(t.agentId, t.connectionId)))
  }

  predicate LatestOk(w: World) {
    forall agentId :: agentId in w.hub.current ==>
      var c := w.hub.current[agentId];
      (agentId, c.connectionId) in w.latest && w.latest[(agentId, c.connectionId)] == c.channel
  }

  ghost predicate RoomTargetsMarked(w: World) {
    forall id :: id in w.calls && w.calls[id].phase.Flushing? && w.calls[id].room ==>
      w.calls[id].phase.target.expectedRole == Some(Room)
  }

  ghost predicate AllSentOk(sent: seq<Sent>) {
    forall i :: 0 <= i < |sent| ==> SentOk(sent[i])
  }

  ghost predicate SendsValid(w: World) {
    LeaseMatches(w.hub) && LatestOk(w) && RoomTargetsMarked(w) && AllSentOk(w.sent)
  }

  // ---------------------------------------------------------------- one send

  lemma ResolvedIsReady(w: World, to: Option<string>)
    requires LeaseMatches(w.hub) && Resolved(w, to).Some?
    ensures var target := Resolved(w, to).value;
      && SentOk(Sent(to.None?, target, w.hub))
      && target.channel == w.hub.current[target.agentId].channel
      && (to.None? ==> target.expectedRole == Some(Room))
  {
  }

  /** Re-admission never rereads the lease: that the role is still Room is enough. */
  lemma AdmittedIsReady(hub: Hub, target: Target, room: bool)
    requires LeaseMatches(hub) && AdmissionError(hub, target) == None
    requires room ==> target.expectedRole == Some(Room)
    ensures SentOk(Sent(room, target, hub))
  {
  }

  lemma DispatchedSends(w: World, id: nat, call: Call, target: Target, preflight: Preflight, runId: string,
                        channelOpen: bool)
    requires SendsValid(w) && SentOk(Sent(call.room, target, w.hub))
    requires call.room ==> target.expectedRole == Some(Room)
    ensures SendsValid(Dispatched(w, id, call, target, preflight, runId, channelOpen))
  {
    hide SentOk, LeaseMatches, AfterSend;
    var v := Dispatched(w, id, call, target, preflight, runId, channelOpen);
    assert LatestOk(v);
    assert RoomTargetsMarked(v);
  }

  // ---------------------------------------------------------------- every run

  lemma EventKeepsLatest(w: World, e: Event)
    requires LatestOk(w)
    ensures LatestOk(AfterHubEvent(w, e))
  {
  }

  lemma HubEventSends(w: World, e: Event)
    requires SendsValid(w)
    ensures SendsValid(AfterHubEvent(w, e))
  {
    EventKeepsLatest(w, e);
    EventKeepsLease(w.hub, e);
    hide AfterEvent, AfterReplace, LeaseMatches, LatestOk, SentOk;
    assert RoomTargetsMarked(AfterHubEvent(w, e));
  }

  lemma CallSends(w: World, id: nat, call: Call, tables: Tables, handlers: map<nat, Handler>)
    requires SendsValid(w) && !call.phase.Flushing?
    ensures SendsValid(w.(calls := w.calls[id := call], tables := tables, handlers := handlers))
  {
    hide SentOk, LeaseMatches;
  }

  lemma TablesSend(w: World, tables: Tables, handlers: map<nat, Handler>)
    requires SendsValid(w)
    ensures SendsValid(w.(tables := tables, handlers := handlers))
  {
    hide SentOk, LeaseMatches;
  }

  lemma DropTargetSends(w: World, id: nat)
    requires SendsValid(w)
    ensures SendsValid(Next(w, DropTarget(id)))
  {
    if id in w.calls && w.calls[id].phase.SendFailed? {
      var target := w.calls[id].phase.target;
      var e := Disconnect(target.agentId, target.connectionId, None);
      hide SendsValid;
      HubEventSends(w, e);
      CallSends(AfterHubEvent(w, e), id, w.calls[id].(phase := Returned(None)), w.tables, w.handlers);
    }
  }

  lemma RequestSends(w: World, id: nat, to: Option<string>, requestId: string, commandHash: string,
                     preflight: Preflight, runId: string, channelOpen: bool)
    requires SendsValid(w)
    ensures SendsValid(Next(w, Request(id, to, requestId, commandHash, preflight, runId, channelOpen)))
  {
    if id !in w.calls && runId !in w.tables.runs {
      var call := Call(to.None?, requestId, commandHash, None, None, 0, Returned(None));
      if Resolved(w, to).Some? {
        ResolvedIsReady(w, to);
        hide SendsValid, Resolved, SentOk, Dispatched;
        DispatchedSends(w, id, call, Resolved(w, to).value, preflight, runId, channelOpen);
      } else {
        hide SendsValid, Resolved;
        CallSends(w, id, call, w.tables, w.handlers);
      }
    }
  }

  lemma ReadmitSends(w: World, id: nat, preflight: Preflight, runId: string, channelOpen: bool)
    requires SendsValid(w)
    ensures SendsValid(Next(w, Readmit(id, preflight, runId, channelOpen)))
  {
    if id in w.calls && w.calls[id].phase.Flushing? && runId !in w.tables.runs {
      var call, target := w.calls[id], w.calls[id].phase.target;
      if AdmissionError(w.hub, target).None? {
        assert call.room ==> target.expectedRole == Some(Room);
        AdmittedIsReady(w.hub, target, call.room);
        hide SendsValid, SentOk, Dispatched, AdmissionError;
        DispatchedSends(w, id, call, target, preflight, runId, channelOpen);
      } else {
        hide SendsValid, AdmissionError;
        CallSends(w, id, call.(phase := Returned(None)), w.tables, w.handlers);
      }
    }
  }

  lemma StepSends(w: World, step: Step)
    requires SendsValid(w)
    ensures SendsValid(Next(w, step))
  {
    hide SendsValid;
    var v := Next(w, step);
    match step {
      case HubStep(event) => HubEventSends(w, event);
      case Request(id, to, requestId, commandHash, preflight, runId, channelOpen) =>
        RequestSends(w, id, to, requestId, commandHash, preflight, runId, channelOpen);
      case Readmit(id, preflight, runId, channelOpen) => ReadmitSends(w, id, preflight, runId, channelOpen);
      case DropTarget(id) => DropTargetSends(w, id);
      case _ => OtherStepSends(w, step);
    }
  }

  lemma OtherStepSends(w: World, step: Step)
    requires SendsValid(w) && !step.HubStep? && !step.Request? && !step.Readmit? && !step.DropTarget?
    ensures SendsValid(Next(w, step))
  {
    hide SendsValid, AfterStore, AfterTake, AfterReport;
    var v := Next(w, step);
    TablesSend(w, v.tables, v.handlers);
    match step {
      case Deliver(handler) =>
        if handler in w.handlers && w.handlers[handler].Holding? {
          var id := w.handlers[handler].call;
          if id in w.calls && w.calls[id].phase.Waiting? {
            CallSends(w, id, v.calls[id], v.tables, v.handlers);
          }
        }
      case Wake(id, _) => if id in w.calls { CallUnless(w, id, v); }
      case TimeOut(id) => if id in w.calls { CallUnless(w, id, v); }
      case RemoveWaiter(id) => if id in w.calls { CallUnless(w, id, v); }
      case _ =>
    }
  }

  lemma CallUnless(w: World, id: nat, v: World)
    requires SendsValid(w) && id in w.calls
    requires v == w || (id in v.calls && !v.calls[id].phase.Flushing?
                        && v == w.(calls := w.calls[id := v.calls[id]], tables := v.tables, handlers := v.handlers))
    ensures SendsValid(v)
  {
    hide SendsValid;
    if v != w {
      CallSends(w, id, v.calls[id], v.tables, v.handlers);
    }
  }

  lemma {:induction false} RunSends(w: World, steps: seq<Step>)
    requires SendsValid(w)
    ensures SendsValid(After(w, steps))
    decreases |steps|
  {
    hide SendsValid, Next;
    if steps != [] {
      StepSends(w, steps[0]);
      RunSends(Next(w, steps[0]), steps[1..]);
    }
  }

  /** In every run each command leaves while its target is the agent's current, greeted,
      command-capable connection, and a Room command only to the active room of that moment,
      although re-admission after a flush looks at the connection alone. */
  lemma SendsAreValid(steps: seq<Step>, i: nat)
    requires i < |After(EMPTY_WORLD, steps).sent|
    ensures SentOk(After(EMPTY_WORLD, steps).sent[i])
  {
    hide SentOk, Next;
    assert LeaseMatches(EMPTY_HUB);
    RunSends(EMPTY_WORLD, steps);
  }

  // ---------------------------------------------------------------- the channel

  /** The step makes a connection of this agent under this id. */
  predicate Connects(w: World, step: Step, agentId: string, connectionId: string) {
    && step.HubStep? && step.event.Connect?
    && step.event.agentId == agentId && step.event.connectionId == connectionId
    && AfterReplace(w.hub, agentId, connectionId, step.event.channel, step.event.at).1.Replaced?
  }

  /** Some step of the run connects this agent anew under this id. */
  predicate Reconnects(w: World, steps: seq<Step>, agentId: string, connectionId: string)
    decreases |steps|
  {
    steps != [] &&
    (Connects(w, steps[0], agentId, connectionId) || Reconnects(Next(w, steps[0]), steps[1..], agentId, connectionId))
  }

  function ChannelsOf(steps: seq<Step>): set<nat> {
    set i | 0 <= i < |steps| && steps[i].HubStep? && steps[i].event.Connect? :: steps[i].event.channel
  }

  /** Every connection brings a message channel of its own. */
  predicate OwnChannels(steps: seq<Step>) {
    forall i, j :: (0 <= i < j < |steps| && steps[i].HubStep? && steps[i].event.Connect?
                    && steps[j].HubStep? && steps[j].event.Connect?) ==>
      steps[i].event.channel != steps[j].event.channel
  }

  predicate LatestIs(w: World, agentId: string, connectionId: string, channel: nat) {
    (agentId, connectionId) in w.latest && w.latest[(agentId, connectionId)] == channel
  }

  lemma StepLatest(w: World, step: Step, agentId: string, connectionId: string)
    ensures var v := Next(w, step);
      if Connects(w, step, agentId, connectionId) then LatestIs(v, agentId, connectionId, step.event.channel)
      else (agentId, connectionId) in v.latest <==> (agentId, connectionId) in w.latest
    ensures var v := Next(w, step);
      !Connects(w, step, agentId, connectionId) && (agentId, connectionId) in w.latest ==>
        v.latest[(agentId, connectionId)] == w.latest[(agentId, connectionId)]
  {
    hide AfterEvent, AfterReplace, AfterDisconnect, Resolved, AdmissionError, AfterStore, AfterReport, AfterTake,
         AfterSend;
  }

  /** While no step reconnects, the latest channel stays. */
  lemma {:induction false} LatestStays(w: World, steps: seq<Step>, agentId: string, connectionId: string, channel: nat)
    requires LatestIs(w, agentId, connectionId, channel) && !Reconnects(w, steps, agentId, connectionId)
    ensures LatestIs(After(w, steps), agentId, connectionId, channel)
    decreases |steps|
  {
    hide Next, Connects;
    if steps != [] {
      StepLatest(w, steps[0], agentId, connectionId);
      LatestStays(Next(w, steps[0]), steps[1..], agentId, connectionId, channel);
    }
  }

  /** The latest channel of a pair comes from the world before or from a connect of the run. */
  lemma {:induction false} LatestComesFrom(w: World, steps: seq<Step>, agentId: string, connectionId: string)
    ensures var v := After(w, steps);
      (agentId, connectionId) in v.latest ==>
        || v.latest[(agentId, connectionId)] in ChannelsOf(steps)
        || (!Reconnects(w, steps, agentId, connectionId) && (agentId, connectionId) in w.latest
            && v.latest[(agentId, connectionId)] == w.latest[(agentId, connectionId)])
    decreases |steps|
  {
    if steps != [] {
      StepLatest(w, steps[0], agentId, connectionId);
      ChannelsSplit(steps);
      assert Connects(w, steps[0], agentId, connectionId) ==> steps[0].event.channel in ChannelsOf(steps);
      hide Next, Connects, ChannelsOf;
      LatestComesFrom(Next(w, steps[0]), steps[1..], agentId, connectionId);
    }
  }

  lemma ChannelsSplit(steps: seq<Step>)
    requires steps != []
    ensures ChannelsOf(steps[1..]) <= ChannelsOf(steps)
    ensures steps[0].HubStep? && steps[0].event.Connect? ==> steps[0].event.channel in ChannelsOf(steps)
  {
    forall channel | channel in ChannelsOf(steps[1..])
      ensures channel in ChannelsOf(steps)
    {
      var i :| 0 <= i < |steps[1..]| && steps[1..][i].HubStep? && steps[1..][i].event.Connect?
               && steps[1..][i].event.channel == channel;
      assert steps[i + 1].event.channel == channel;
    }
  }

  lemma OwnChannelsDisjoint(before: seq<Step>, after: seq<Step>)
    requires OwnChannels(before + after)
    ensures ChannelsOf(before) !! ChannelsOf(after)
  {
    forall i, j | 0 <= i < |before| && 0 <= j < |after| && before[i].HubStep? && before[i].event.Connect?
                  && after[j].HubStep? && after[j].event.Connect?
      ensures before[i].event.channel != after[j].event.channel
    {
      assert (before + after)[i] == before[i] && (before + after)[|before| + j] == after[j];
    }
  }

  lemma ResolvedIsLatest(w: World, to: Option<string>)
    requires SendsValid(w) && Resolved(w, to).Some?
    ensures var target := Resolved(w, to).value;
      LatestIs(w, target.agentId, target.connectionId, target.channel)
  {
    hide RoomTargetsMarked, AllSentOk;
    ResolvedIsReady(w, to);
  }

  lemma AdmittedIsLatest(w: World, target: Target)
    requires SendsValid(w) && AdmissionError(w.hub, target) == None
    ensures target.agentId in w.hub.current
    ensures LatestIs(w, target.agentId, target.connectionId, w.hub.current[target.agentId].channel)
  {
    hide RoomTargetsMarked, AllSentOk, LeaseMatches;
  }

  /** A target that is admitted again, after any steps, names the current channel if the agent has
      not connected anew under its id since the target was resolved ... */
  lemma KeptChannel(before: seq<Step>, to: Option<string>, after: seq<Step>)
    requires Resolved(After(EMPTY_WORLD, before), to).Some?
    ensures var w := After(EMPTY_WORLD, before);
      var target, v := Resolved(w, to).value, After(w, after);
      AdmissionError(v.hub, target) == None && !Reconnects(w, after, target.agentId, target.connectionId) ==>
        target.agentId in v.hub.current && v.hub.current[target.agentId].channel == target.channel
  {
    hide Next, SentOk, Resolved, SendsValid, Reconnects, LatestIs, AdmissionError;
    StartSends();
    RunSends(EMPTY_WORLD, before);
    var w := After(EMPTY_WORLD, before);
    ResolvedIsLatest(w, to);
    var target, v := Resolved(w, to).value, After(w, after);
    RunSends(w, after);
    if AdmissionError(v.hub, target) == None && !Reconnects(w, after, target.agentId, target.connectionId) {
      AdmittedIsLatest(v, target);
      LatestStays(w, after, target.agentId, target.connectionId, target.channel);
      SameLatest(v, target.agentId, target.connectionId, target.channel, v.hub.current[target.agentId].channel);
    }
  }

  lemma SameLatest(w: World, agentId: string, connectionId: string, a: nat, b: nat)
    requires LatestIs(w, agentId, connectionId, a) && LatestIs(w, agentId, connectionId, b)
    ensures a == b
  {
  }

  lemma StartSends()
    ensures SendsValid(EMPTY_WORLD)
  {
  }

  /** ... and, each connection having a channel of its own, only then. */
  lemma ReadmittedChannelIff(before: seq<Step>, to: Option<string>, after: seq<Step>)
    requires Resolved(After(EMPTY_WORLD, before), to).Some? && OwnChannels(before + after)
    ensures var w := After(EMPTY_WORLD, before);
      var target, v := Resolved(w, to).value, After(w, after);
      AdmissionError(v.hub, target) == None ==>
        && target.agentId in v.hub.current
        && (v.hub.current[target.agentId].channel == target.channel
            <==> !Reconnects(w, after, target.agentId, target.connectionId))
  {
    KeptChannel(before, to, after);
    OwnChannelsDisjoint(before, after);
    hide Next, SentOk, Resolved, SendsValid, OwnChannels, ChannelsOf, AdmissionError, Reconnects;
    StartSends();
    RunSends(EMPTY_WORLD, before);
    var w := After(EMPTY_WORLD, before);
    var target, v := Resolved(w, to).value, After(w, after);
    ResolvedIsLatest(w, to);
    RunSends(w, after);
    if AdmissionError(v.hub, target) == None {
      AdmittedIsLatest(v, target);
      LatestComesFrom(EMPTY_WORLD, before, target.agentId, target.connectionId);
      if Reconnects(w, after, target.agentId, target.connectionId) {
        LatestComesFrom(w, after, target.agentId, target.connectionId);
      }
    }
  }

  // ---------------------------------------------------------------- ids that are not reused

  /** No agent connects twice under one id. */
  predicate FreshIds(w: World, steps: seq<Step>)
    decreases |steps|
  {
    steps == [] ||
    (&& (steps[0].HubStep? && steps[0].event.Connect? ==>
           (steps[0].event.agentId, steps[0].event.connectionId) !in w.latest)
     && FreshIds(Next(w, steps[0]), steps[1..]))
  }

  lemma {:induction false} AfterConcat(w: World, a: seq<Step>, b: seq<Step>)
    ensures After(w, a + b) == After(After(w, a), b)
    ensures FreshIds(w, a + b) <==> FreshIds(w, a) && FreshIds(After(w, a), b)
    decreases |a|
  {
    hide Next;
    if a == [] {
      assert a + b == b;
    } else {
      assert (a + b)[1..] == a[1..] + b;
      AfterConcat(Next(w, a[0]), a[1..], b);
    }
  }

  lemma {:induction false} FreshNeverReconnects(w: World, steps: seq<Step>, agentId: string, connectionId: string)
    requires FreshIds(w, steps) && (agentId, connectionId) in w.latest
    ensures !Reconnects(w, steps, agentId, connectionId)
    decreases |steps|
  {
    if steps != [] {
      StepLatest(w, steps[0], agentId, connectionId);
      hide Next;
      FreshNeverReconnects(Next(w, steps[0]), steps[1..], agentId, connectionId);
    }
  }

  /** Where the target of a flushing call was resolved: at the end of the first `k` steps. */
  ghost predicate ResolvedAt(steps: seq<Step>, k: nat, to: Option<string>, target: Target) {
    k <= |steps| && Resolved(After(EMPTY_WORLD, steps[..k]), to) == Some(target)
  }

  ghost predicate FlushingResolved(steps: seq<Step>) {
    var w := After(EMPTY_WORLD, steps);
    forall id :: id in w.calls && w.calls[id].phase.Flushing? ==>
      exists k: nat, to :: ResolvedAt(steps, k, to, w.calls[id].phase.target)
  }

  lemma FlushingTargets(w: World, step: Step, id: nat)
    requires id in Next(w, step).calls && Next(w, step).calls[id].phase.Flushing?
    ensures var target := Next(w, step).calls[id].phase.target;
      || (id in w.calls && w.calls[id].phase == Flushing(target))
      || (step.Request? && Resolved(w, step.to) == Some(target))
  {
    hide AfterEvent, AfterReplace, AfterDisconnect, Resolved, AdmissionError, AfterStore, AfterReport, AfterTake,
         AfterSend, Dispatched;
    if step.Request? && Resolved(w, step.to).Some? {
      var call := Call(step.to.None?, step.requestId, step.commandHash, None, None, 0, Returned(None));
      DispatchedFlushes(w, step.call, call, Resolved(w, step.to).value, step.preflight, step.runId, step.channelOpen,
                        id);
    } else if step.Readmit? && step.call in w.calls && w.calls[step.call].phase.Flushing? {
      var call := w.calls[step.call];
      DispatchedFlushes(w, step.call, call, call.phase.target, step.preflight, step.runId, step.channelOpen, id);
    }
  }

  lemma DispatchedFlushes(w: World, id: nat, call: Call, target: Target, preflight: Preflight, runId: string,
                          channelOpen: bool, other: nat)
    ensures var v := Dispatched(w, id, call, target, preflight, runId, channelOpen);
      if other == id then v.calls[id].phase.Flushing? ==> v.calls[id].phase.target == target
      else (other in v.calls <==> other in w.calls) && (other in w.calls ==> v.calls[other] == w.calls[other])
  {
    hide AfterSend;
  }

  lemma {:induction false} FlushingWasResolved(steps: seq<Step>)
    ensures FlushingResolved(steps)
    decreases |steps|
  {
    if steps != [] {
      var before, step := steps[..|steps| - 1], steps[|steps| - 1];
      FlushingWasResolved(before);
      AfterLast(steps);
      hide Next, Resolved;
      var w, v := After(EMPTY_WORLD, before), After(EMPTY_WORLD, steps);
      forall id | id in v.calls && v.calls[id].phase.Flushing?
        ensures exists k: nat, to :: ResolvedAt(steps, k, to, v.calls[id].phase.target)
      {
        var target := v.calls[id].phase.target;
        FlushingTargets(w, step, id);
        if id in w.calls && w.calls[id].phase == Flushing(target) {
          var k: nat, to :| ResolvedAt(before, k, to, target);
          assert steps[..k] == before[..k];
          assert ResolvedAt(steps, k, to, target);
        } else {
          assert ResolvedAt(steps, |before|, step.to, target);
        }
      }
    }
  }

  lemma AfterLast(steps: seq<Step>)
    requires steps != []
    ensures var before, step := steps[..|steps| - 1], steps[|steps| - 1];
      After(EMPTY_WORLD, steps) == Next(After(EMPTY_WORLD, before), step)
      && (FreshIds(EMPTY_WORLD, steps) ==> FreshIds(EMPTY_WORLD, before))
  {
    hide Next;
    var before, step := steps[..|steps| - 1], steps[|steps| - 1];
    assert steps == before + [step];
    AfterConcat(EMPTY_WORLD, before, [step]);
    assert [step][1..] == [];
    var w := After(EMPTY_WORLD, before);
    assert After(Next(w, step), []) == Next(w, step);
  }

  predicate ToCurrentChannel(sent: Sent) {
    sent.target.agentId in sent.hub.current && sent.target.channel == sent.hub.current[sent.target.agentId].channel
  }

  ghost predicate AllToCurrent(sent: seq<Sent>) {
    forall i :: 0 <= i < |sent| ==> ToCurrentChannel(sent[i])
  }

  /** A step sends to a target it has just resolved, or to one of a flushing call that it admits. */
  lemma SentTargets(w: World, step: Step)
    ensures var v := Next(w, step);
      v.sent == w.sent ||
      exists sent: Sent :: v.sent == w.sent + [sent] && sent.hub == w.hub &&
        (|| (step.Request? && Resolved(w, step.to) == Some(sent.target))
         || (step.Readmit? && step.call in w.calls && w.calls[step.call].phase == Flushing(sent.target)
             && AdmissionError(w.hub, sent.target) == None))
  {
    hide AfterEvent, AfterReplace, AfterDisconnect, Resolved, AdmissionError, AfterStore, AfterReport, AfterTake,
         AfterSend;
    var v := Next(w, step);
    if v.sent != w.sent {
      assert v.sent == w.sent + [v.sent[|v.sent| - 1]];
    }
  }

  /** Where connection ids are not reused, every command goes down the current channel. */
  lemma {:induction false} FreshIdsReachCurrentChannel(steps: seq<Step>)
    requires FreshIds(EMPTY_WORLD, steps)
    ensures AllToCurrent(After(EMPTY_WORLD, steps).sent)
    decreases |steps|
  {
    if steps != [] {
      var before, step := steps[..|steps| - 1], steps[|steps| - 1];
      AfterLast(steps);
      hide Next, Resolved, AdmissionError, ToCurrentChannel, FreshIds;
      FreshIdsReachCurrentChannel(before);
      var w, v := After(EMPTY_WORLD, before), After(EMPTY_WORLD, steps);
      SentTargets(w, step);
      if v.sent != w.sent {
        var sent: Sent :| v.sent == w.sent + [sent] && sent.hub == w.hub &&
          (|| (step.Request? && Resolved(w, step.to) == Some(sent.target))
           || (step.Readmit? && step.call in w.calls && w.calls[step.call].phase == Flushing(sent.target)
               && AdmissionError(w.hub, sent.target) == None));
        if step.Request? {
          ResolvedReachesCurrent(before, step.to, sent);
        } else {
          FlushingWasResolved(before);
          var k: nat, to :| ResolvedAt(before, k, to, sent.target);
          ReadmittedReachesCurrent(before, k, to, sent);
        }
      }
    }
  }

  lemma ResolvedReachesCurrent(steps: seq<Step>, to: Option<string>, sent: Sent)
    requires Resolved(After(EMPTY_WORLD, steps), to) == Some(sent.target) && sent.hub == After(EMPTY_WORLD, steps).hub
    ensures ToCurrentChannel(sent)
  {
    hide Next, SentOk, RoomTargetsMarked, LatestOk;
    StartSends();
    RunSends(EMPTY_WORLD, steps);
    ResolvedIsReady(After(EMPTY_WORLD, steps), to);
    assert SentOk(Sent(to.None?, sent.target, sent.hub));
    SentIsCurrent(Sent(to.None?, sent.target, sent.hub));
  }

  lemma SentIsCurrent(sent: Sent)
    requires SentOk(sent)
    ensures sent.target.agentId in sent.hub.current
  {
  }

  lemma ReadmittedReachesCurrent(steps: seq<Step>, k: nat, to: Option<string>, sent: Sent)
    requires FreshIds(EMPTY_WORLD, steps) && ResolvedAt(steps, k, to, sent.target)
    requires sent.hub == After(EMPTY_WORLD, steps).hub && AdmissionError(sent.hub, sent.target) == None
    ensures ToCurrentChannel(sent)
  {
    hide Next, Resolved, AdmissionError, SendsValid, Reconnects, FreshIds;
    var before, after, target := steps[..k], steps[k..], sent.target;
    assert steps == before + after;
    AfterConcat(EMPTY_WORLD, before, after);
    var w := After(EMPTY_WORLD, before);
    StartSends();
    RunSends(EMPTY_WORLD, before);
    ResolvedIsLatest(w, to);
    FreshNeverReconnects(w, after, target.agentId, target.connectionId);
    KeptChannel(before, to, after);
  }

  /** A caller may choose its own ids: connect as `id`, send a command that must wait for a flush,
      connect as another and as `id` again. The command is then admitted and leaves, to the channel
      of the first connection, while the last one is current. */
  lemma ReusedIdKeepsOldChannel(agentId: string, id: string, other: string, generation: string, first: nat, last: nat,
                                at: int, requestId: string, commandHash: string, runId: string)
    requires id != "" && other != "" && id != other && first != last
    ensures var hello := HubStep(Hello(agentId, id, generation, Normal, CommandCapable, at));
      var steps := [
        HubStep(Connect(agentId, id, first, at)), hello,
        Request(0, Some(agentId), requestId, commandHash, MustFlush, runId, true),
        HubStep(Connect(agentId, other, 0, at)), HubStep(Connect(agentId, id, last, at)), hello,
        Readmit(0, Ready, runId, true)];
      var sent := After(EMPTY_WORLD, steps).sent;
      && |sent| == 1 && sent[0].target == Target(agentId, id, first, None)
      && agentId in sent[0].hub.current && sent[0].hub.current[agentId].channel == last
  {
    var connect, leave, again := HubStep(Connect(agentId, id, first, at)), HubStep(Connect(agentId, other, 0, at)),
      HubStep(Connect(agentId, id, last, at));
    var hello := HubStep(Hello(agentId, id, generation, Normal, CommandCapable, at));
    var request := Request(0, Some(agentId), requestId, commandHash, MustFlush, runId, true);
    var readmit := Readmit(0, Ready, runId, true);
    hide *;
    SevenSteps(EMPTY_WORLD, connect, hello, request, leave, again, hello, readmit);
    FlushingRequest(agentId, id, first, at, generation, request);
    var w := Next(Next(Next(EMPTY_WORLD, connect), hello), request);
    ReconnectedHub(w, agentId, id, other, last, at, generation);
    AdmittedSends(Next(Next(Next(w, leave), again), hello), Target(agentId, id, first, None), last, readmit);
  }

  /** The agent's connection, greeted and ready for commands, and what it sends into. */
  predicate IsReadyOn(w: World, agentId: string, connectionId: string, channel: nat) {
    && w.hub.IsCurrent(agentId, connectionId)
    && var c := w.hub.current[agentId];
       c.channel == channel && c.helloReceived && c.mode == CommandCapable
  }

  predicate IsFlushing(w: World, call: nat, target: Target) {
    call in w.calls && w.calls[call].phase == Flushing(target) && w.tables.runs == map[] && w.sent == []
  }

  lemma FlushingRequest(agentId: string, id: string, channel: nat, at: int, generation: string, request: Step)
    requires id != "" && request.Request? && request.to == Some(agentId) && request.preflight.MustFlush?
    ensures var v := Next(EMPTY_WORLD, HubStep(Connect(agentId, id, channel, at)));
      var w := Next(Next(v, HubStep(Hello(agentId, id, generation, Normal, CommandCapable, at))), request);
      IsFlushing(w, request.call, Target(agentId, id, channel, None)) && w.hub.IsCurrent(agentId, id)
  {
  }

  lemma ReconnectedHub(w: World, agentId: string, id: string, other: string, channel: nat, at: int, generation: string)
    requires id != "" && other != "" && id != other && w.hub.IsCurrent(agentId, id)
    ensures var u := Next(Next(w, HubStep(Connect(agentId, other, 0, at))), HubStep(Connect(agentId, id, channel, at)));
      var v := Next(u, HubStep(Hello(agentId, id, generation, Normal, CommandCapable, at)));
      && v.tables == w.tables && v.sent == w.sent && v.calls == w.calls
      && IsReadyOn(v, agentId, id, channel)
      && forall call, target :: IsFlushing(w, call, target) ==> IsFlushing(v, call, target)
  {
  }

  lemma AdmittedSends(w: World, target: Target, channel: nat, readmit: Step)
    requires readmit.Readmit? && readmit.preflight.Ready? && readmit.channelOpen && target.expectedRole.None?
    requires IsFlushing(w, readmit.call, target) && IsReadyOn(w, target.agentId, target.connectionId, channel)
    ensures var sent := Next(w, readmit).sent;
      && |sent| == 1 && sent[0].target == target
      && target.agentId in sent[0].hub.current && sent[0].hub.current[target.agentId].channel == channel
  {
  }

  lemma SevenSteps(w: World, a: Step, b: Step, c: Step, d: Step, e: Step, f: Step, g: Step)
    ensures After(w, [a, b, c, d, e, f, g]) == Next(Next(Next(Next(Next(Next(Next(w, a), b), c), d), e), f), g)
  {
    hide Next;
    assert [a, b, c, d, e, f, g] == [a, b, c] + [d, e, f] + [g];
    AfterConcat(w, [a, b, c] + [d, e, f], [g]);
    AfterConcat(w, [a, b, c], [d, e, f]);
    hide After, FreshIds;
    ThreeSteps(w, a, b, c);
    ThreeSteps(Next(Next(Next(w, a), b), c), d, e, f);
    OneStep(Next(Next(Next(Next(Next(Next(w, a), b), c), d), e), f), g);
  }

  lemma OneStep(w: World, step: Step)
    ensures After(w, [step]) == Next(w, step)
  {
    hide Next;
    assert [step][1..] == [];
  }

  lemma ThreeSteps(w: World, a: Step, b: Step, c: Step)
    ensures After(w, [a, b, c]) == Next(Next(Next(w, a), b), c)
  {
    hide Next;
    assert [a, b, c][1..] == [b, c] && [b, c][1..] == [c];
    OneStep(Next(Next(w, a), b), c);
  }
}
