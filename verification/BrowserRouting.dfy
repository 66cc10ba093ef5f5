/** Request ids rewritten on the way to the extension, and responses routed back
    (agentic-browser-host/src/lib.rs:115-384). */
module BrowserRouting {
  import opened Text

  /** A JSON value, opened only as far as routing looks: `headerFlag` is the field
      `agentRequestHeaderEnabled` of an object. */
  datatype Json = Str(text: string) | Record(headerFlag: Option<string>, others: string) | OtherJson(raw: string)

  datatype Message =
    | Object(method_: Option<Json>, id: Option<Json>, result: Option<Json>, rest: string)
    | NotAnObject(raw: string)

  datatype Route = Route(clientId: nat, originalId: Json, method_: Option<string>)

  /** `clients` maps each id to its writer. */
  datatype Registry = Registry(clients: map<nat, nat>, pending: map<string, Route>, nextClientId: nat, standalone: bool)

  const GET_STATUS := "bridge.getStatus"
  const GET_INFO := "getInfo"

  function EmptyRegistry(standalone: bool): Registry {
    Registry(map[], map[], 1, standalone)
  }

  /** The string a JSON value is, if it is one. */
  function AsStr(value: Option<Json>): Option<string> {
    if value.Some? && value.value.Str? then Some(value.value.text) else None
  }

  // ---------------------------------------------------------------- steps

  function AfterRegister(r: Registry, writer: nat): Registry {
    r.(clients := r.clients[r.nextClientId := writer], nextClientId := r.nextClientId + 1)
  }

  function WithoutRoutesOf(pending: map<string, Route>, clientId: nat): map<string, Route> {
    map bridgeId | bridgeId in pending && pending[bridgeId].clientId != clientId :: pending[bridgeId]
  }

  function AfterDrop(r: Registry, clientId: nat): Registry {
    r.(clients := r.clients - {clientId}, pending := WithoutRoutesOf(r.pending, clientId))
  }

  datatype ClientOutcome =
    | ClientIgnored
    | StatusReply(writer: Option<nat>, id: Json, clientCount: nat)
    | ToExtension(message: Message)

  /** A request goes on under the fresh `bridgeId`, a notification as it is. */
  function AfterClientMessage(r: Registry, clientId: nat, message: Message, bridgeId: string)
    : (Registry, ClientOutcome)
  {
    if message.NotAnObject? || message.method_.None? then (r, ClientIgnored)
    else if AsStr(message.method_) == Some(GET_STATUS) && message.id.Some? then
      (r, StatusReply(if clientId in r.clients then Some(r.clients[clientId]) else None, message.id.value, |r.clients|))
    else if message.id.None? then (r, ToExtension(message))
    else
      (r.(pending := r.pending[bridgeId := Route(clientId, message.id.value, AsStr(message.method_))]),
       ToExtension(message.(id := Some(Str(bridgeId)))))
  }

  datatype ExtensionOutcome =
    | ExtensionIgnored
    | Broadcast(writers: map<nat, nat>)
    | AnsweredLocally
    | Deliver(clientId: nat, writer: nat, message: Message)

  /** The flag is taken out of an object result, and out of nothing else. */
  function WithoutFlag(result: Option<Json>): Option<Json> {
    if result.Some? && result.value.Record? then Some(result.value.(headerFlag := None)) else result
  }

  /** The response as the client gets it. */
  function ForClient(response: Message, originalId: Json, hideFlag: bool): Message
    requires response.Object?
  {
    response.(id := Some(originalId), result := if hideFlag then WithoutFlag(response.result) else response.result)
  }

  function AfterExtensionMessage(r: Registry, message: Message): (Registry, ExtensionOutcome) {
    if message.NotAnObject? then (r, ExtensionIgnored)
    else if message.id.Some? && message.method_.None? then
      if !message.id.value.Str? || message.id.value.text !in r.pending then (r, ExtensionIgnored)
      else
        var bridgeId := message.id.value.text;
        var route := r.pending[bridgeId];
        var taken := r.(pending := r.pending - {bridgeId});
        if route.clientId in r.clients then
          (taken, Deliver(route.clientId, r.clients[route.clientId],
                          ForClient(message, route.originalId, r.standalone && route.method_ == Some(GET_INFO))))
        else (taken, ExtensionIgnored)
    else if message.method_.Some? && message.id.None? then (r, Broadcast(r.clients))
    else if message.method_.Some? then (r, AnsweredLocally)
    else (r, ExtensionIgnored)
  }

  // ---------------------------------------------------------------- the object

  class Host {
    var clients: map<nat, nat>
    var pending: map<string, Route>
    var nextClientId: nat
    const standalone: bool

    function View(): Registry
      reads this
    {
      Registry(clients, pending, nextClientId, standalone)
    }

    constructor (standalone: bool)
      ensures View() == EmptyRegistry(standalone)
    {
      clients, pending, nextClientId := map[], map[], 1;
      this.standalone := standalone;
    }

    method RegisterClient(writer: nat) returns (clientId: nat)
      modifies this
      ensures clientId == old(nextClientId) && View() == AfterRegister(old(View()), writer)
    {
      clientId := nextClientId;
      nextClientId := nextClientId + 1;
      clients := clients[clientId := writer];
    }

    method DropClient(clientId: nat)
      modifies this
      ensures View() == AfterDrop(old(View()), clientId)
    {
      clients := clients - {clientId};
      pending := map bridgeId | bridgeId in pending && pending[bridgeId].clientId != clientId :: pending[bridgeId];
    }

    method HandleClientMessage(clientId: nat, message: Message, bridgeId: string) returns (outcome: ClientOutcome)
      modifies this
      ensures (View(), outcome) == AfterClientMessage(old(View()), clientId, message, bridgeId)
    {
      if message.NotAnObject? || message.method_.None? {
        return ClientIgnored;
      }
      if AsStr(message.method_) == Some(GET_STATUS) && message.id.Some? {
        return StatusReply(if clientId in clients then Some(clients[clientId]) else None, message.id.value, |clients|);
      }
      if message.id.None? {
        return ToExtension(message);
      }
      pending := pending[bridgeId := Route(clientId, message.id.value, AsStr(message.method_))];
      return ToExtension(message.(id := Some(Str(bridgeId))));
    }

    method HandleExtensionMessage(message: Message) returns (outcome: ExtensionOutcome)
      modifies this
      ensures (View(), outcome) == AfterExtensionMessage(old(View()), message)
    {
      if message.NotAnObject? {
        return ExtensionIgnored;
      }
      if message.id.Some? && message.method_.None? {
        outcome := RouteExtensionResponse(message);
        return;
      }
      if message.method_.Some? && message.id.None? {
        return Broadcast(clients);
      }
      return if message.method_.Some? then AnsweredLocally else ExtensionIgnored;
    }

    method RouteExtensionResponse(message: Message) returns (outcome: ExtensionOutcome)
      requires message.Object? && message.id.Some? && message.method_.None?
      modifies this
      ensures (View(), outcome) == AfterExtensionMessage(old(View()), message)
    {
      if !message.id.value.Str? || message.id.value.text !in pending {
        return ExtensionIgnored;
      }
      var bridgeId := message.id.value.text;
      var route := pending[bridgeId];
      pending := pending - {bridgeId};
      if route.clientId !in clients {
        return ExtensionIgnored;
      }
      var response := message;
      if standalone && route.method_ == Some(GET_INFO) && response.result.Some? && response.result.value.Record? {
        response := response.(result := Some(response.result.value.(headerFlag := None)));
      }
      response := response.(id := Some(route.originalId));
      return Deliver(route.clientId, clients[route.clientId], response);
    }

    /** After a broadcast: every client whose write failed is dropped with its routes. */
    method DropDead(dead: seq<nat>)
      modifies this
      ensures clients == old(clients) - Elements(dead) && nextClientId == old(nextClientId)
      ensures pending == WithoutRoutesOfAll(old(pending), dead)
    {
      assert WithoutRoutesOfAll(pending, []) == pending;
      for i := 0 to |dead|
        invariant clients == old(clients) - Elements(dead[..i]) && nextClientId == old(nextClientId)
        invariant pending == WithoutRoutesOfAll(old(pending), dead[..i])
      {
        DropClient(dead[i]);
        assert dead[..i + 1] == dead[..i] + [dead[i]];
      }
      assert dead[..|dead|] == dead;
    }
  }

  function Elements(ids: seq<nat>): set<nat> {
    set id | id in ids
  }

  function WithoutRoutesOfAll(pending: map<string, Route>, dead: seq<nat>): map<string, Route> {
    map bridgeId | bridgeId in pending && pending[bridgeId].clientId !in dead :: pending[bridgeId]
  }

  // ---------------------------------------------------------------- runs

  /** A response handed to a client's writer, under the bridge id it came with. */
  datatype Delivery = Delivery(bridgeId: string, clientId: nat, writer: nat, message: Message, response: Message)

  /** What a client asked for, taken from the client's own message. */
  datatype Issue = Issue(clientId: nat, request: Message)

  /** `issued` records every request clients sent, `forwarded` what went on to the extension under
      its bridge id, `writers` every client that ever was. */
  datatype World = World(registry: Registry, issued: map<string, Issue>, forwarded: map<string, Message>,
                         writers: map<nat, nat>, delivered: seq<Delivery>)

  function EmptyWorld(standalone: bool): World {
    World(EmptyRegistry(standalone), map[], map[], map[], [])
  }

  /** Drops cover closed connections and failed writes. A client's own thread may still send a
      message after a drop; a bridge id, made with a random UUID, is new. */
  datatype Step =
    | Register(writer: nat)
    | Drop(clientId: nat)
    | FromClient(clientId: nat, message: Message, bridgeId: string)
    | FromExtension(message: Message)

  /** A client message that expects the extension's answer. */
  predicate IsRequest(message: Message) {
    message.Object? && message.method_.Some? && message.id.Some? && message.method_ != Some(Str(GET_STATUS))
  }

  function Next(w: World, step: Step): World {
    match step
    case Register(writer) =>
      w.(registry := AfterRegister(w.registry, writer), writers := w.writers[w.registry.nextClientId := writer])
    case Drop(clientId) => w.(registry := AfterDrop(w.registry, clientId))
    case FromClient(clientId, message, bridgeId) =>
      if clientId !in w.writers || bridgeId in w.issued then w
      else
        var (registry, outcome) := AfterClientMessage(w.registry, clientId, message, bridgeId);
        w.(registry := registry,
           issued := if IsRequest(message) then w.issued[bridgeId := Issue(clientId, message)] else w.issued,
           forwarded := if IsRequest(message) && outcome.ToExtension? then w.forwarded[bridgeId := outcome.message]
                        else w.forwarded)
    case FromExtension(message) =>
      var (registry, outcome) := AfterExtensionMessage(w.registry, message);
      w.(registry := registry,
         delivered := w.delivered + if outcome.Deliver? then
           [Delivery(message.id.value.text, outcome.clientId, outcome.writer, outcome.message, message)] else [])
  }

  function After(w: World, steps: seq<Step>): World
    decreases |steps|
  {
    if steps == [] then w else After(Next(w, steps[0]), steps[1..])
  }

  /** The request went on unchanged but for its id. */
  predicate IsForwarded(w: World, bridgeId: string)
    requires bridgeId in w.issued
  {
    var request := w.issued[bridgeId].request;
    IsRequest(request) && bridgeId in w.forwarded && w.forwarded[bridgeId] == request.(id := Some(Str(bridgeId)))
  }

  /** What the client is to see of a result: all of it, but for the capability flag of an object that
      answers `getInfo` in standalone mode. */
  function ResultFor(standalone: bool, request: Message, result: Option<Json>): Option<Json>
    requires request.Object?
  {
    match result
    case Some(Record(_, others)) =>
      if standalone && request.method_ == Some(Str("getInfo")) then Some(Record(None, others)) else result
    case _ => result
  }

  /** The delivery answers a request that this very client sent, under the id it sent, with the response's
      own contents. */
  predicate Answers(w: World, d: Delivery) {
    && d.bridgeId in w.issued && w.issued[d.bridgeId].clientId == d.clientId
    && d.clientId in w.writers && w.writers[d.clientId] == d.writer
    && var request := w.issued[d.bridgeId].request;
       && IsForwarded(w, d.bridgeId)
       && d.response.Object? && d.response.id == Some(Str(d.bridgeId))
       && d.message.Object? && d.message.id == request.id
       && d.message.method_ == d.response.method_ && d.message.rest == d.response.rest
       && d.message.result == ResultFor(w.registry.standalone, request, d.response.result)
  }

  /** An open route says what its request said. */
  predicate RouteOk(w: World, bridgeId: string)
    requires bridgeId in w.registry.pending
  {
    && bridgeId in w.issued && IsRequest(w.issued[bridgeId].request)
    && var issue := w.issued[bridgeId];
       w.registry.pending[bridgeId] == Route(issue.clientId, issue.request.id.value, AsStr(issue.request.method_))
  }

  ghost predicate RoutesValid(w: World) {
    && (forall c :: c in w.writers ==> c < w.registry.nextClientId)
    && (forall c :: c in w.registry.clients ==> c in w.writers && w.registry.clients[c] == w.writers[c])
    && (forall b :: b in w.registry.pending ==> RouteOk(w, b))
    && (forall b :: b in w.issued ==> w.issued[b].clientId in w.writers && IsForwarded(w, b))
  }

  ghost predicate DeliveriesValid(w: World) {
    && (forall i :: 0 <= i < |w.delivered| ==>
          Answers(w, w.delivered[i]) && w.delivered[i].bridgeId !in w.registry.pending)
    && (forall i, j :: 0 <= i < j < |w.delivered| ==> w.delivered[i].bridgeId != w.delivered[j].bridgeId)
  }

  ghost predicate Valid(w: World) {
    RoutesValid(w) && DeliveriesValid(w)
  }

  /** Whoever keeps the records and opens only routes for new requests keeps the deliveries valid. */
  lemma DeliveriesStay(w: World, v: World)
    requires Valid(w) && v.delivered == w.delivered && v.registry.standalone == w.registry.standalone
    requires forall c :: c in w.writers ==> c in v.writers && v.writers[c] == w.writers[c]
    requires forall b :: b in w.issued ==>
      b in v.issued && v.issued[b] == w.issued[b] && b in v.forwarded && v.forwarded[b] == w.forwarded[b]
    requires forall b :: b in v.registry.pending && b !in w.registry.pending ==> b !in w.issued
    ensures DeliveriesValid(v)
  {
    hide RouteOk, ForClient;
    forall i | 0 <= i < |w.delivered|
      ensures Answers(v, w.delivered[i])
    {
      assert Answers(w, w.delivered[i]);
    }
  }

  lemma RegisterKeeps(w: World, writer: nat)
    requires Valid(w)
    ensures Valid(Next(w, Register(writer)))
  {
    hide DeliveriesValid, ForClient;
    var v := Next(w, Register(writer));
    forall b | b in v.registry.pending
      ensures RouteOk(v, b)
    {
      assert RouteOk(w, b);
    }
    DeliveriesStay(w, v);
  }

  lemma DropKeeps(w: World, clientId: nat)
    requires Valid(w)
    ensures Valid(Next(w, Drop(clientId)))
  {
    hide DeliveriesValid, ForClient;
    var v := Next(w, Drop(clientId));
    forall b | b in v.registry.pending
      ensures RouteOk(v, b)
    {
      assert RouteOk(w, b);
    }
    DeliveriesStay(w, v);
  }

  /** The world after a request went out. */
  function Sent(w: World, clientId: nat, request: Message, bridgeId: string): World
    requires IsRequest(request)
  {
    w.(registry := w.registry.(pending :=
         w.registry.pending[bridgeId := Route(clientId, request.id.value, AsStr(request.method_))]),
       issued := w.issued[bridgeId := Issue(clientId, request)],
       forwarded := w.forwarded[bridgeId := request.(id := Some(Str(bridgeId)))])
  }

  lemma FromClientIs(w: World, clientId: nat, message: Message, bridgeId: string)
    ensures Next(w, FromClient(clientId, message, bridgeId)) ==
            if clientId in w.writers && bridgeId !in w.issued && IsRequest(message)
            then Sent(w, clientId, message, bridgeId)
            else w
  {
  }

  lemma SentKeepsRoutes(w: World, clientId: nat, request: Message, bridgeId: string)
    requires Valid(w) && IsRequest(request) && clientId in w.writers && bridgeId !in w.issued
    ensures RoutesValid(Sent(w, clientId, request, bridgeId))
  {
    hide DeliveriesValid, AsStr;
    var v := Sent(w, clientId, request, bridgeId);
    forall b | b in v.registry.pending
      ensures RouteOk(v, b)
    {
      assert b != bridgeId ==> RouteOk(w, b);
    }
    forall b | b in v.issued
      ensures v.issued[b].clientId in v.writers && IsForwarded(v, b)
    {
      assert b != bridgeId ==> IsForwarded(w, b);
    }
  }

  lemma FromClientKeeps(w: World, clientId: nat, message: Message, bridgeId: string)
    requires Valid(w)
    ensures Valid(Next(w, FromClient(clientId, message, bridgeId)))
  {
    hide DeliveriesValid, IsRequest, Next, RouteOk;
    FromClientIs(w, clientId, message, bridgeId);
    if clientId in w.writers && bridgeId !in w.issued && IsRequest(message) {
      SentKeepsRoutes(w, clientId, message, bridgeId);
      DeliveriesStay(w, Sent(w, clientId, message, bridgeId));
    }
  }

  lemma ClientContents(response: Message, request: Message, standalone: bool)
    requires response.Object? && IsRequest(request)
    ensures request.Object? && request.id.Some?
    ensures ForClient(response, request.id.value, standalone && AsStr(request.method_) == Some(GET_INFO))
            == Object(response.method_, request.id, ResultFor(standalone, request, response.result), response.rest)
  {
  }

  lemma ExtensionStepKeeps(w: World, message: Message)
    requires Valid(w)
    ensures Valid(Next(w, FromExtension(message)))
  {
    hide AfterRegister, AfterDrop, AfterClientMessage, ForClient, IsRequest;
    var v := Next(w, FromExtension(message));
    assert v.registry.standalone == w.registry.standalone;
    ResponseKeepsRoutes(w, message);
    forall i | 0 <= i < |w.delivered|
      ensures Answers(v, w.delivered[i])
    {
      assert Answers(w, w.delivered[i]);
    }
    if v.delivered != w.delivered {
      assert RouteOk(w, message.id.value.text);
      ClientContents(message, w.issued[message.id.value.text].request, w.registry.standalone);
    }
    hide RouteOk, RoutesValid, ResultFor;
  }

  lemma ResponseKeepsRoutes(w: World, message: Message)
    requires Valid(w)
    ensures RoutesValid(Next(w, FromExtension(message)))
  {
    hide ForClient, DeliveriesValid, IsRequest, AsStr;
    var v := Next(w, FromExtension(message));
    forall b | b in v.registry.pending
      ensures RouteOk(v, b)
    {
      assert RouteOk(w, b);
    }
  }

  lemma StepKeeps(w: World, step: Step)
    requires Valid(w)
    ensures Valid(Next(w, step))
  {
    hide Valid, Next;
    match step {
      case Register(writer) => RegisterKeeps(w, writer);
      case Drop(clientId) => DropKeeps(w, clientId);
      case FromClient(clientId, message, bridgeId) => FromClientKeeps(w, clientId, message, bridgeId);
      case FromExtension(message) => ExtensionStepKeeps(w, message);
    }
  }

  lemma {:induction false} RunsKeep(w: World, steps: seq<Step>)
    requires Valid(w)
    ensures Valid(After(w, steps))
    decreases |steps|
  {
    hide Valid, Next;
    if steps != [] {
      StepKeeps(w, steps[0]);
      RunsKeep(Next(w, steps[0]), steps[1..]);
    }
  }

  /** In every run: each request goes on unchanged but for its id, and each response that is
      delivered answers a request that the client it goes to sent, under the id the client gave it,
      as the only one for that request. */
  lemma NoMisrouting(standalone: bool, steps: seq<Step>)
    ensures var w := After(EmptyWorld(standalone), steps);
      && (forall b :: b in w.issued ==> IsForwarded(w, b))
      && (forall i :: 0 <= i < |w.delivered| ==> Answers(w, w.delivered[i]))
      && (forall i, j :: 0 <= i < j < |w.delivered| ==> w.delivered[i].bridgeId != w.delivered[j].bridgeId)
  {
    hide Next, Answers, IsForwarded;
    RunsKeep(EmptyWorld(standalone), steps);
  }

  /** Client ids are never given twice, and what was issued stays on record: a later client
      can not come to stand where an earlier one was. */
  ghost predicate Extends(before: World, after: World) {
    && before.registry.nextClientId <= after.registry.nextClientId
    && (forall c :: c in before.writers ==> c in after.writers && after.writers[c] == before.writers[c])
    && (forall b :: b in before.issued ==> b in after.issued && after.issued[b] == before.issued[b])
    && before.delivered <= after.delivered && after.registry.standalone == before.registry.standalone
  }

  lemma StepExtends(w: World, step: Step)
    requires Valid(w)
    ensures Extends(w, Next(w, step))
  {
    hide WithoutRoutesOf, Answers, ForClient, IsForwarded, RouteOk;
  }

  lemma ExtendsTransitive(a: World, b: World, c: World)
    requires Extends(a, b) && Extends(b, c)
    ensures Extends(a, c)
  {
  }

  lemma {:induction false} IdsAreNotReused(w: World, steps: seq<Step>)
    requires Valid(w)
    ensures Extends(w, After(w, steps))
    decreases |steps|
  {
    if steps == [] {
      assert Extends(w, w);
    } else {
      hide Valid, Next, Extends;
      StepKeeps(w, steps[0]);
      StepExtends(w, steps[0]);
      IdsAreNotReused(Next(w, steps[0]), steps[1..]);
      ExtendsTransitive(w, Next(w, steps[0]), After(w, steps));
    }
  }

  /** The steps that leave a request open: no drop of its client, and no response to it. */
  predicate LeavesOpen(step: Step, clientId: nat, bridgeId: string) {
    match step
    case Drop(dropped) => dropped != clientId
    case FromExtension(message) => !(message.Object? && message.method_.None? && message.id == Some(Str(bridgeId)))
    case _ => true
  }

  ghost predicate IsOpen(w: World, bridgeId: string, issue: Issue) {
    && bridgeId in w.issued && w.issued[bridgeId] == issue && bridgeId in w.registry.pending
    && issue.clientId in w.registry.clients
  }

  lemma StepLeavesOpen(w: World, step: Step, bridgeId: string, issue: Issue)
    requires Valid(w) && IsOpen(w, bridgeId, issue) && LeavesOpen(step, issue.clientId, bridgeId)
    ensures IsOpen(Next(w, step), bridgeId, issue)
  {
    assert RouteOk(w, bridgeId);
    hide DeliveriesValid, Answers, ForClient, IsForwarded;
  }

  lemma {:induction false} StepsLeaveOpen(w: World, steps: seq<Step>, bridgeId: string, issue: Issue)
    requires Valid(w) && IsOpen(w, bridgeId, issue)
    requires forall i :: 0 <= i < |steps| ==> LeavesOpen(steps[i], issue.clientId, bridgeId)
    ensures IsOpen(After(w, steps), bridgeId, issue) && Valid(After(w, steps))
    decreases |steps|
  {
    hide Valid, Next, IsOpen, LeavesOpen;
    if steps != [] {
      StepKeeps(w, steps[0]);
      StepLeavesOpen(w, steps[0], bridgeId, issue);
      StepsLeaveOpen(Next(w, steps[0]), steps[1..], bridgeId, issue);
    }
  }

  lemma OpenIsAnswered(w: World, bridgeId: string, issue: Issue, result: Option<Json>, rest: string)
    requires Valid(w) && IsOpen(w, bridgeId, issue)
    ensures issue.request.Object? && issue.request.id.Some?
    ensures var response := Object(None, Some(Str(bridgeId)), result, rest);
      var v := Next(w, FromExtension(response));
      && |v.delivered| == |w.delivered| + 1
      && v.delivered[|w.delivered|]
         == Delivery(bridgeId, issue.clientId, w.registry.clients[issue.clientId],
                     Object(None, issue.request.id, ResultFor(w.registry.standalone, issue.request, result), rest),
                     response)
  {
    assert RouteOk(w, bridgeId);
    hide DeliveriesValid, Answers, IsForwarded;
  }

  /** A request of a connected client stays open through whatever other clients do, drops of theirs
      included, and the first response to it is delivered to that client, under the id it sent and with
      the response's own contents. */
  lemma RequestIsAnswered(w: World, clientId: nat, request: Message, bridgeId: string, steps: seq<Step>,
                          result: Option<Json>, rest: string)
    requires Valid(w) && clientId in w.registry.clients && bridgeId !in w.issued && IsRequest(request)
    requires forall i :: 0 <= i < |steps| ==> LeavesOpen(steps[i], clientId, bridgeId)
    ensures var sent := After(Next(w, FromClient(clientId, request, bridgeId)), steps);
      var response := Object(None, Some(Str(bridgeId)), result, rest);
      var v := Next(sent, FromExtension(response));
      && |v.delivered| == |sent.delivered| + 1
      && v.delivered[|sent.delivered|]
         == Delivery(bridgeId, clientId, w.registry.clients[clientId],
                     Object(None, request.id, ResultFor(w.registry.standalone, request, result), rest), response)
  {
    var issue := Issue(clientId, request);
    var first := Next(w, FromClient(clientId, request, bridgeId));
    StepKeeps(w, FromClient(clientId, request, bridgeId));
    RequestOpens(w, clientId, request, bridgeId);
    hide Next, IsOpen, LeavesOpen, IsRequest, DeliveriesValid, RouteOk, ResultFor;
    StepsLeaveOpen(first, steps, bridgeId, issue);
    IsOpenMeans(After(first, steps), bridgeId, issue);
    OpenIsAnswered(After(first, steps), bridgeId, issue, result, rest);
    StepExtends(w, FromClient(clientId, request, bridgeId));
    IdsAreNotReused(first, steps);
    hide After;
  }

  lemma IsOpenMeans(w: World, bridgeId: string, issue: Issue)
    requires IsOpen(w, bridgeId, issue)
    ensures issue.clientId in w.registry.clients
  {
  }

  lemma RequestOpens(w: World, clientId: nat, request: Message, bridgeId: string)
    requires Valid(w) && clientId in w.registry.clients && bridgeId !in w.issued && IsRequest(request)
    ensures IsOpen(Next(w, FromClient(clientId, request, bridgeId)), bridgeId, Issue(clientId, request))
  {
    hide DeliveriesValid, Answers, ForClient, IsForwarded;
  }

  // ---------------------------------------------------------------- what becomes of a message

  /** Only one route is added, or none is. */
  ghost predicate OnlyRouteAdded(r: Registry, t: Registry, bridgeId: string, route: Route) {
    && t.clients == r.clients && t.nextClientId == r.nextClientId && t.standalone == r.standalone
    && bridgeId in t.pending && t.pending[bridgeId] == route
    && forall b :: b != bridgeId ==>
         (b in t.pending <==> b in r.pending) && (b in r.pending ==> t.pending[b] == r.pending[b])
  }

  /** A client's message is ignored without a method, answered by the host itself if it asks for the status,
      passed on as it is without an id, and else passed on under the new id, with a route back. */
  lemma ClientMessageOutcomes(r: Registry, clientId: nat, message: Message, bridgeId: string)
    ensures var (t, outcome) := AfterClientMessage(r, clientId, message, bridgeId);
      match message
      case NotAnObject(_) => outcome == ClientIgnored && t == r
      case Object(method_, id, result, rest) =>
        if method_.None? then outcome == ClientIgnored && t == r
        else if id.None? then outcome == ToExtension(message) && t == r
        else if method_ == Some(Str("bridge.getStatus")) then
          && t == r && outcome.StatusReply? && outcome.id == id.value && outcome.clientCount == |r.clients|
          && outcome.writer == if clientId in r.clients then Some(r.clients[clientId]) else None
        else
          && outcome == ToExtension(Object(method_, Some(Str(bridgeId)), result, rest))
          && OnlyRouteAdded(r, t, bridgeId,
                            Route(clientId, id.value, if method_.value.Str? then Some(method_.value.text) else None))
  {
  }

  /** A message of the extension with a method and no id goes to every client, with both it is answered by
      the host, with neither ignored; one with an id alone uses up its route, if it has one. */
  lemma ExtensionMessageOutcomes(r: Registry, message: Message)
    ensures var (t, outcome) := AfterExtensionMessage(r, message);
      && t.clients == r.clients && t.nextClientId == r.nextClientId && t.standalone == r.standalone
      && match message
         case NotAnObject(_) => outcome == ExtensionIgnored && t == r
         case Object(Some(_), None, _, _) => outcome == Broadcast(r.clients) && t == r
         case Object(Some(_), Some(_), _, _) => outcome == AnsweredLocally && t == r
         case Object(None, None, _, _) => outcome == ExtensionIgnored && t == r
         case Object(None, Some(id), _, _) =>
           && (outcome.Deliver? <==> id.Str? && id.text in r.pending && r.pending[id.text].clientId in r.clients)
           && (outcome.Deliver? || outcome.ExtensionIgnored?)
           && (forall b :: b in t.pending <==> b in r.pending && id != Str(b))
           && (forall b :: b in t.pending ==> t.pending[b] == r.pending[b])
  {
  }

  /** A drop takes the client and all its routes, and nobody else's. */
  lemma DropOutcome(r: Registry, clientId: nat)
    ensures var t := AfterDrop(r, clientId);
      && t.nextClientId == r.nextClientId && t.standalone == r.standalone
      && (forall c :: c in t.clients <==> c in r.clients && c != clientId)
      && (forall c :: c in t.clients ==> t.clients[c] == r.clients[c])
      && (forall b :: b in t.pending <==> b in r.pending && r.pending[b].clientId != clientId)
      && (forall b :: b in t.pending ==> t.pending[b] == r.pending[b])
  {
  }

  // ---------------------------------------------------------------- who is connected

  function Registered(steps: seq<Step>): nat {
    if steps == [] then 0 else Registered(steps[..|steps| - 1]) + if steps[|steps| - 1].Register? then 1 else 0
  }

  /** Step `k` registered the client, which was not dropped since. */
  predicate ConnectedSince(steps: seq<Step>, clientId: nat, k: nat) {
    && k < |steps| && steps[k].Register? && Registered(steps[..k]) + 1 == clientId
    && forall j :: k < j < |steps| ==> steps[j] != Drop(clientId)
  }

  ghost predicate ClientsAre(steps: seq<Step>, r: Registry, clientId: nat) {
    && r.nextClientId == Registered(steps) + 1
    && (clientId in r.clients <==> exists k: nat :: ConnectedSince(steps, clientId, k))
    && forall k: nat :: k < |steps| && ConnectedSince(steps, clientId, k) && clientId in r.clients ==>
         r.clients[clientId] == steps[k].writer
  }

  /** In every run the clients count from 1 in the order in which they registered, and are connected to the
      writer they registered with until they are dropped. */
  lemma {:induction false} ConnectedIff(standalone: bool, steps: seq<Step>, clientId: nat)
    ensures ClientsAre(steps, After(EmptyWorld(standalone), steps).registry, clientId)
    decreases |steps|
  {
    if steps == [] {
      NobodyYet(standalone, clientId);
    } else {
      var front, last := steps[..|steps| - 1], steps[|steps| - 1];
      assert steps == front + [last];
      hide After, ClientsAre, Next;
      ConnectedIff(standalone, front, clientId);
      AfterSnoc(EmptyWorld(standalone), front, last);
      ConnectedSnoc(front, After(EmptyWorld(standalone), front), last, clientId);
    }
  }

  lemma NobodyYet(standalone: bool, clientId: nat)
    ensures ClientsAre([], EmptyWorld(standalone).registry, clientId)
    ensures After(EmptyWorld(standalone), []) == EmptyWorld(standalone)
  {
  }

  lemma {:induction false} AfterSnoc(w: World, steps: seq<Step>, step: Step)
    ensures After(w, steps + [step]) == Next(After(w, steps), step)
    decreases |steps|
  {
    hide Next;
    if steps == [] {
      assert [] + [step] == [step] && [step][1..] == [];
      assert After(w, [step]) == After(Next(w, step), []);
    } else {
      assert (steps + [step])[1..] == steps[1..] + [step];
      AfterSnoc(Next(w, steps[0]), steps[1..], step);
    }
  }

  lemma ClientsNext(w: World, step: Step)
    ensures var r, t := w.registry, Next(w, step).registry;
      && t.nextClientId == r.nextClientId + (if step.Register? then 1 else 0)
      && t.clients == match step
                      case Register(writer) => r.clients[r.nextClientId := writer]
                      case Drop(clientId) => r.clients - {clientId}
                      case _ => r.clients
  {
    hide AfterClientMessage, AfterExtensionMessage, WithoutRoutesOf, IsRequest;
    if step.FromClient? {
      ClientLeavesClients(w.registry, step.clientId, step.message, step.bridgeId);
    } else if step.FromExtension? {
      ExtensionLeavesClients(w.registry, step.message);
    }
  }

  lemma ClientLeavesClients(r: Registry, clientId: nat, message: Message, bridgeId: string)
    ensures var t := AfterClientMessage(r, clientId, message, bridgeId).0;
      t.clients == r.clients && t.nextClientId == r.nextClientId
  {
  }

  lemma ExtensionLeavesClients(r: Registry, message: Message)
    ensures var t := AfterExtensionMessage(r, message).0;
      t.clients == r.clients && t.nextClientId == r.nextClientId
  {
    hide ForClient;
  }

  lemma SinceSnoc(steps: seq<Step>, step: Step, clientId: nat, k: nat)
    ensures ConnectedSince(steps + [step], clientId, k) <==>
      if k == |steps| then step.Register? && clientId == Registered(steps) + 1
      else ConnectedSince(steps, clientId, k) && step != Drop(clientId)
    ensures ConnectedSince(steps, clientId, k) ==> k < |steps| && (steps + [step])[k] == steps[k]
    ensures ConnectedSince(steps + [step], clientId, k) ==> k <= |steps|
  {
    hide Registered;
    var all := steps + [step];
    assert all[|steps|] == step && forall j :: 0 <= j < |steps| ==> all[j] == steps[j];
    if k <= |steps| {
      assert all[..k] == steps[..k] && steps[..|steps|] == steps;
    }
    if k < |steps| && ConnectedSince(steps, clientId, k) && step != Drop(clientId) {
      assert forall j :: k < j < |all| ==> all[j] != Drop(clientId);
    }
  }

  lemma RegisteredSnoc(steps: seq<Step>, step: Step)
    ensures Registered(steps + [step]) == Registered(steps) + if step.Register? then 1 else 0
  {
    assert (steps + [step])[..|steps + [step]| - 1] == steps;
  }

  lemma {:induction false} RegisteredGrows(steps: seq<Step>, k: nat)
    requires k < |steps| && steps[k].Register?
    ensures Registered(steps[..k]) < Registered(steps)
  {
    var front := steps[..|steps| - 1];
    if k < |front| {
      RegisteredGrows(front, k);
      assert front[..k] == steps[..k];
    }
  }

  lemma ConnectedSnoc(steps: seq<Step>, w: World, step: Step, clientId: nat)
    requires ClientsAre(steps, w.registry, clientId)
    ensures ClientsAre(steps + [step], Next(w, step).registry, clientId)
  {
    hide Next, ConnectedSince, Registered;
    var all, t := steps + [step], Next(w, step).registry;
    ClientsNext(w, step);
    RegisteredSnoc(steps, step);
    SinceSnoc(steps, step, clientId, |steps|);
    forall k: nat | ConnectedSince(all, clientId, k)
      ensures clientId in t.clients && k < |all| && (all[k].Register? ==> t.clients[clientId] == all[k].writer)
    {
      SinceSnoc(steps, step, clientId, k);
      if k < |steps| {
        NotNext(steps, clientId, k);
      }
    }
    if clientId in t.clients {
      if step.Register? && clientId == w.registry.nextClientId {
        assert ConnectedSince(all, clientId, |steps|);
      } else {
        var k: nat :| ConnectedSince(steps, clientId, k);
        SinceSnoc(steps, step, clientId, k);
      }
    }
    SinceRegisters(all, clientId);
  }

  lemma NotNext(steps: seq<Step>, clientId: nat, k: nat)
    requires ConnectedSince(steps, clientId, k)
    ensures clientId != Registered(steps) + 1
  {
    RegisteredGrows(steps, k);
    hide Registered;
  }

  lemma SinceRegisters(steps: seq<Step>, clientId: nat)
    ensures forall k: nat :: ConnectedSince(steps, clientId, k) ==> k < |steps| && steps[k].Register?
  {
    hide Registered;
  }
}
