// src/Bridge/MessageBridge.cpp on values: request settlement, deferred requests and document gates.
//
// A message from a page opens a context (source, request id, settled flag) that handlers act in until
// it is closed again, so a request is two steps here, BeginRequest and EndRequest, with the handler's
// calls between them; a hello is BeginHello and EndHello with the replay hook's calls between them.
// `wire` lists everything handed to the transport.
module BridgeModel {
  import opened Wrappers

  const MAX_REQUEST_ID: nat := 64
  const MAX_QUEUED_EVENTS: nat := 64
  const MAX_PENDING: nat := 64

  datatype Envelope =
    | Ready
    | StateValue(mod: string, key: string, value: string)
    | Event(text: string)
    | Reply(requestId: string, payload: string)
    | Error(requestId: string, code: string)

  datatype Sent = Sent(view: string, envelope: Envelope)

  datatype Pending = Pending(view: string, requestId: string, deadline: int)

  datatype Gate = Gate(greeted: bool, eventsOpen: bool, queued: seq<string>)

  const Closed := Gate(false, false, [])

  // What a request name resolves to.
  datatype Endpoint = NoEndpoint | SendEndpoint | RequestEndpoint

  // Where control is inside HandleWebMessage.
  datatype Phase = Outside | InSend | InRequest | InHello

  datatype Bridge = Bridge(
    gates: map<string, Gate>, pending: map<nat, Pending>, nextToken: nat,
    phase: Phase, source: string, requestId: string, settled: bool, wire: seq<Sent>)

  const Initial := Bridge(map[], map[], 1, Outside, "", "", false, [])

  function GateOf(b: Bridge, view: string): Gate {
    if view in b.gates then b.gates[view] else Closed
  }

  function Send(b: Bridge, view: string, e: Envelope): Bridge {
    b.(wire := b.wire + [Sent(view, e)])
  }

  // A settlement for a view-less message is dropped on the way out.
  function SendNamed(b: Bridge, view: string, e: Envelope): Bridge {
    if view == "" then b else Send(b, view, e)
  }

  predicate Unsettled(b: Bridge) {
    b.requestId != "" && !b.settled
  }

  function Respond(b: Bridge, payload: string): Bridge {
    if !Unsettled(b) then b else SendNamed(b.(settled := true), b.source, Reply(b.requestId, payload))
  }

  function Reject(b: Bridge, code: string): Bridge {
    if !Unsettled(b) then b else SendNamed(b.(settled := true), b.source, Error(b.requestId, code))
  }

  // The token, 0 when there is nothing to defer.
  function Defer(b: Bridge, deadline: int): (nat, Bridge) {
    if !Unsettled(b) then (0, b) else
    (b.nextToken, b.(settled := true, nextToken := b.nextToken + 1,
                     pending := b.pending[b.nextToken := Pending(b.source, b.requestId, deadline)]))
  }

  function Settle(b: Bridge, token: nat, e: Envelope): Bridge
    requires token in b.pending
  {
    SendNamed(b.(pending := b.pending - {token}), b.pending[token].view, e)
  }

  function RespondTo(b: Bridge, token: nat, payload: string): Bridge {
    if token !in b.pending then b else Settle(b, token, Reply(b.pending[token].requestId, payload))
  }

  function RejectTo(b: Bridge, token: nat, code: string): Bridge {
    if token !in b.pending then b else Settle(b, token, Error(b.pending[token].requestId, code))
  }

  // Each listed token in turn; the order is the hash map's and not specified.
  function RejectEach(b: Bridge, code: string, order: seq<nat>): Bridge
    decreases |order|
  {
    if order == [] then b else RejectTo(RejectEach(b, code, order[..|order| - 1]), order[|order| - 1], code)
  }

  predicate Lists(order: seq<nat>, tokens: set<nat>) {
    && (forall i, j | 0 <= i < j < |order| :: order[i] != order[j])
    && (forall t | t in tokens :: t in order) && (forall t | t in order :: t in tokens)
  }

  function Expired(b: Bridge, now: int): set<nat> {
    set t | t in b.pending && now >= b.pending[t].deadline
  }

  function RejectAll(b: Bridge, code: string, order: seq<nat>): Bridge
    requires Lists(order, b.pending.Keys)
  {
    RejectEach(b, code, order)
  }

  function Tick(b: Bridge, now: int, order: seq<nat>): Bridge
    requires Lists(order, Expired(b, now))
  {
    RejectEach(b, "no-response", order)
  }

  function Enqueued(queued: seq<string>, text: string): seq<string> {
    (if |queued| >= MAX_QUEUED_EVENTS then queued[1..] else queued) + [text]
  }

  // EmitJson to one view, with DeliverEvent; to several views, one call each.
  function Emit(b: Bridge, view: string, text: string): Bridge {
    if view == "" then b else
    var g := GateOf(b, view);
    if g.eventsOpen then Send(b, view, Event(text))
    else b.(gates := b.gates[view := g.(queued := Enqueued(g.queued, text))])
  }

  function Publish(b: Bridge, view: string, mod: string, key: string, value: string): Bridge {
    if view == "" || !GateOf(b, view).greeted then b else Send(b, view, StateValue(mod, key, value))
  }

  function Destroyed(b: Bridge, view: string): Bridge {
    b.(gates := b.gates - {view}, pending := map t | t in b.pending && b.pending[t].view != view :: b.pending[t])
  }

  function Created(b: Bridge, view: string): Bridge {
    var d := Destroyed(b, view);
    d.(gates := d.gates[view := Closed])
  }

  // ---- messages from a page ---------------------------------------------------------------------

  function Opened(b: Bridge, view: string, phase: Phase): Bridge {
    b.(phase := phase, source := view, requestId := "", settled := false)
  }

  function Cleared(b: Bridge): Bridge {
    b.(phase := Outside, source := "", requestId := "", settled := false)
  }

  function Owned(b: Bridge, view: string): set<nat> {
    set t | t in b.pending && b.pending[t].view == view
  }

  predicate ValidId(id: string) {
    0 < |id| <= MAX_REQUEST_ID
  }

  function BeginRequest(b: Bridge, view: string, id: string, endpoint: Endpoint): Bridge {
    var u := Opened(b, view, InRequest);
    if !ValidId(id) then u else
    var v := u.(requestId := id);
    if endpoint == SendEndpoint then Reject(v, "wrong-endpoint-kind")
    else if endpoint == NoEndpoint then Reject(v, "unknown-endpoint")
    else if |Owned(b, view)| >= MAX_PENDING then Reject(v, "request-capacity")
    else v
  }

  function EndRequest(b: Bridge): Bridge {
    Cleared(Reject(b, "internal"))
  }

  function BeginHello(b: Bridge, view: string): Bridge {
    var u := Opened(b, view, InHello);
    SendNamed(u.(gates := u.gates[view := GateOf(u, view).(greeted := true)]), view, Ready)
  }

  function SendEvents(b: Bridge, view: string, texts: seq<string>): Bridge
    decreases |texts|
  {
    if texts == [] then b else Send(SendEvents(b, view, texts[..|texts| - 1]), view, Event(texts[|texts| - 1]))
  }

  function EndHello(b: Bridge): Bridge {
    var g := GateOf(b, b.source);
    Cleared(SendEvents(b.(gates := b.gates[b.source := g.(eventsOpen := true, queued := [])]), b.source, g.queued))
  }

  // ---- runs ----------------------------------------------------------------------------------------

  datatype Action =
    | ARespond(payload: string)
    | AReject(code: string)
    | ADefer(deadline: int)
    | ARespondTo(token: nat, payload: string)
    | ARejectTo(token: nat, code: string)
    | ARejectAll(code: string, order: seq<nat>)
    | ATick(now: int, order: seq<nat>)
    | AEmit(view: string, text: string)
    | APublish(view: string, mod: string, key: string, value: string)
    | ACreated(view: string)
    | ADestroyed(view: string)
    | ABeginSend(view: string)
    | AEndSend
    | ABeginRequest(view: string, id: string, endpoint: Endpoint)
    | AEndRequest
    | ABeginHello(view: string)
    | AEndHello
    | ATokensTaken(next: nat)           // another bridge drew from the process-wide counter

  // Messages do not nest. Everything else may happen at any time, inside a handler or outside.
  predicate Enabled(b: Bridge, a: Action) {
    match a
    case ABeginSend(_) => b.phase == Outside
    case ABeginRequest(_, _, _) => b.phase == Outside
    case ABeginHello(_) => b.phase == Outside
    case AEndSend => b.phase == InSend
    case AEndRequest => b.phase == InRequest
    case AEndHello => b.phase == InHello
    case ARejectAll(_, order) => Lists(order, b.pending.Keys)
    case ATick(now, order) => Lists(order, Expired(b, now))
    case ATokensTaken(next) => b.nextToken <= next
    case _ => true
  }

  function Act(b: Bridge, a: Action): Bridge
    requires Enabled(b, a)
  {
    match a
    case ARespond(payload) => Respond(b, payload)
    case AReject(code) => Reject(b, code)
    case ADefer(deadline) => Defer(b, deadline).1
    case ARespondTo(token, payload) => RespondTo(b, token, payload)
    case ARejectTo(token, code) => RejectTo(b, token, code)
    case ARejectAll(code, order) => RejectAll(b, code, order)
    case ATick(now, order) => Tick(b, now, order)
    case AEmit(view, text) => Emit(b, view, text)
    case APublish(view, mod, key, value) => Publish(b, view, mod, key, value)
    case ACreated(view) => Created(b, view)
    case ADestroyed(view) => Destroyed(b, view)
    case ABeginSend(view) => Opened(b, view, InSend)
    case AEndSend => Cleared(b)
    case ABeginRequest(view, id, endpoint) => BeginRequest(b, view, id, endpoint)
    case AEndRequest => EndRequest(b)
    case ABeginHello(view) => BeginHello(b, view)
    case AEndHello => EndHello(b)
    case ATokensTaken(next) => b.(nextToken := next)
  }
}
