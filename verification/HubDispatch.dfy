/** Pending waiters and the durable run table (agents/dispatch.rs, storage/runs.rs). */
module HubDispatch {
  import opened Text

  /** `result` is the canonical result: once set, its JSON or at least its hash stays. */
  datatype Run = Run(agentId: string, requestId: string, commandHash: string, result: Option<string>)

  /** `call` names the waiting caller whose one-shot sender this is. */
  datatype Waiter = Waiter(agentId: string, requestId: string, commandHash: string, call: nat)

  datatype Tables = Tables(runs: map<string, Run>, pending: map<string, Waiter>)

  datatype StoreOutcome = Unmatched | Stored(commandHash: string) | Duplicate(commandHash: string) | Conflict
  {
    predicate Accepted() { Stored? || Duplicate? }
  }

  function AfterStore(runs: map<string, Run>, agentId: string, runId: string, requestId: string, value: string)
    : (map<string, Run>, StoreOutcome)
  {
    if runId !in runs || runs[runId].agentId != agentId || runs[runId].requestId != requestId then (runs, Unmatched)
    else
      var run := runs[runId];
      if run.result == Some(value) then (runs, Duplicate(run.commandHash))
      else if run.result.Some? then (runs, Conflict)
      else (runs[runId := run.(result := Some(value))], Stored(run.commandHash))
  }

  datatype Taken = NoWaiter | Took(call: nat) | OwnerMismatch

  function AfterTake(pending: map<string, Waiter>, agentId: string, runId: string, requestId: string,
                     commandHash: string)
    : (map<string, Waiter>, Taken)
  {
    if runId !in pending then (pending, NoWaiter)
    else
      var owner := pending[runId];
      if owner.agentId == agentId && owner.requestId == requestId && owner.commandHash == commandHash then
        (pending - {runId}, Took(owner.call))
      else (pending, OwnerMismatch)
  }

  /** A run is recorded and its waiter set up before the send; a failed send takes it back. */
  function AfterSend(t: Tables, runId: string, run: Run, call: nat, sendOk: bool): Tables {
    Tables(t.runs[runId := run],
           if sendOk then t.pending[runId := Waiter(run.agentId, run.requestId, run.commandHash, call)]
           else t.pending - {runId})
  }

  /** An agent's own report: it may add a run, and sets a result only where none is. */
  function AfterReport(runs: map<string, Run>, agentId: string, runId: string, requestId: string, commandHash: string,
                       result: Option<string>): map<string, Run>
  {
    if runId !in runs then runs[runId := Run(agentId, requestId, commandHash, result)]
    else if runs[runId].agentId != agentId || runs[runId].requestId != requestId || runs[runId].result.Some? then runs
    else runs[runId := runs[runId].(result := result)]
  }

  class Dispatch {
    var runs: map<string, Run>
    var pending: map<string, Waiter>

    function View(): Tables
      reads this
    {
      Tables(runs, pending)
    }

    constructor ()
      ensures View() == Tables(map[], map[])
    {
      runs, pending := map[], map[];
    }

    method StoreResult(agentId: string, runId: string, requestId: string, value: string) returns (outcome: StoreOutcome)
      modifies this`runs
      ensures (runs, outcome) == AfterStore(old(runs), agentId, runId, requestId, value)
    {
      if runId !in runs || runs[runId].agentId != agentId || runs[runId].requestId != requestId {
        return Unmatched;
      }
      var run := runs[runId];
      if run.result.Some? {
        return if run.result.value == value then Duplicate(run.commandHash) else Conflict;
      }
      runs := runs[runId := run.(result := Some(value))];
      return Stored(run.commandHash);
    }

    method TakeWaiter(agentId: string, runId: string, requestId: string, commandHash: string) returns (taken: Taken)
      modifies this`pending
      ensures (pending, taken) == AfterTake(old(pending), agentId, runId, requestId, commandHash)
    {
      if runId !in pending {
        return NoWaiter;
      }
      var owner := pending[runId];
      if owner.agentId != agentId || owner.requestId != requestId || owner.commandHash != commandHash {
        return OwnerMismatch;
      }
      pending := pending - {runId};
      return Took(owner.call);
    }

    /** The section of a request under both guards; `channelOpen` is what the send finds. */
    method PrepareAndSend(runId: string, agentId: string, requestId: string, commandHash: string, call: nat,
                          channelOpen: bool) returns (sendOk: bool)
      modifies this
      ensures sendOk == channelOpen
      ensures View() == AfterSend(old(View()), runId, Run(agentId, requestId, commandHash, None), call, sendOk)
    {
      runs := runs[runId := Run(agentId, requestId, commandHash, None)];
      pending := pending[runId := Waiter(agentId, requestId, commandHash, call)];
      sendOk := channelOpen;
      if !sendOk {
        pending := pending - {runId};
      }
    }

    method RemoveWaiter(runId: string)
      modifies this`pending
      ensures pending == old(pending) - {runId}
    {
      pending := pending - {runId};
    }
  }
}
