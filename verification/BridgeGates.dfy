// The order in which a document sees ready, state and events.
//
// The history notes for each view where on the wire its current document begins, the events emitted to
// it since, and how many of them had been emitted, and how much of its stream sent, when its gate opened.
module BridgeGates {
  import opened Wrappers
  import opened BridgeModel

  // `broken` holds the views whose hello hook retired the very document that said hello.
  datatype History = History(since: map<string, nat>, emitted: map<string, seq<string>>, openedAt: map<string, (nat, nat)>, broken: set<string>)

  const NoHistory := History(map[], map[], map[], {})

  function Since(h: History, view: string): nat {
    if view in h.since then h.since[view] else 0
  }

  function Emitted(h: History, view: string): seq<string> {
    if view in h.emitted then h.emitted[view] else []
  }

  // What was sent to a view from wire position `from` on.
  function Stream(wire: seq<Sent>, from: nat, view: string): seq<Envelope>
    decreases |wire|
  {
    if |wire| <= from then [] else
    var last := wire[|wire| - 1];
    Stream(wire[..|wire| - 1], from, view) + if last.view == view then [last.envelope] else []
  }

  // The current document's part of the wire.
  function Seen(b: Bridge, h: History, view: string): seq<Envelope> {
    Stream(b.wire, Since(h, view), view)
  }

  function EventsOf(s: seq<Envelope>): seq<string>
    decreases |s|
  {
    if s == [] then [] else
    EventsOf(s[..|s| - 1]) + if s[|s| - 1].Event? then [s[|s| - 1].text] else []
  }

  // The newest events a closed gate retains.
  function Backlog(emitted: seq<string>): seq<string> {
    if |emitted| <= MAX_QUEUED_EVENTS then emitted else emitted[|emitted| - MAX_QUEUED_EVENTS..]
  }

  function Note(h: History, b: Bridge, a: Action): History {
    match a
    case AEmit(view, text) =>
      if view == "" then h else h.(emitted := h.emitted[view := Emitted(h, view) + [text]])
    case ACreated(view) => NoteRetired(h, b, view)
    case ADestroyed(view) => NoteRetired(h, b, view)
    case AEndHello =>
      if GateOf(b, b.source).eventsOpen then h
      else h.(openedAt := h.openedAt[b.source := (|Emitted(h, b.source)|, |Seen(b, h, b.source)|)])
    case _ => h
  }

  function NoteRetired(h: History, b: Bridge, view: string): History {
    h.(since := h.since[view := |b.wire|], emitted := h.emitted[view := []],
       broken := if b.phase == InHello && b.source == view then h.broken + {view} else h.broken - {view})
  }

  // ---- the invariant of one view -------------------------------------------------------------------

  predicate Unsolicited(e: Envelope) {
    e.StateValue? || e.Event?
  }

  predicate ReadyFirst(s: seq<Envelope>) {
    forall i | 0 <= i < |s| && Unsolicited(s[i]) :: Ready in s[..i]
  }

  predicate ClosedOk(gate: Gate, s: seq<Envelope>, emitted: seq<string>) {
    EventsOf(s) == [] && gate.queued == Backlog(emitted)
  }

  // Everything before position `at.1` of the stream precedes the first event; ready is there.
  predicate OpenOk(gate: Gate, s: seq<Envelope>, emitted: seq<string>, at: (nat, nat)) {
    && gate.queued == [] && at.0 <= |emitted| && at.1 <= |s|
    && Ready in s[..at.1] && EventsOf(s[..at.1]) == []
    && EventsOf(s) == Backlog(emitted[..at.0]) + emitted[at.0..]
  }

  predicate GateOk(gate: Gate, s: seq<Envelope>, emitted: seq<string>, at: Option<(nat, nat)>) {
    && (!gate.greeted ==> !gate.eventsOpen && forall e | e in s :: e.Reply? || e.Error?)
    && (gate.greeted ==> Ready in s && ReadyFirst(s))
    && (!gate.eventsOpen ==> ClosedOk(gate, s, emitted))
    && (gate.eventsOpen ==> at.Some? && OpenOk(gate, s, emitted, at.value))
  }

  function OpenedAt(h: History, view: string): Option<(nat, nat)> {
    if view in h.openedAt then Some(h.openedAt[view]) else None
  }

  predicate ViewOk(b: Bridge, h: History, view: string) {
    && Since(h, view) <= |b.wire|
    && (view != "" && view !in h.broken ==>
          && GateOk(GateOf(b, view), Seen(b, h, view), Emitted(h, view), OpenedAt(h, view))
          && (b.phase == InHello && b.source == view ==> GateOf(b, view).greeted))
  }

  ghost predicate Inv(b: Bridge, h: History) {
    && (forall view :: ViewOk(b, h, view))
    && GateOf(b, "").queued == [] 
  }

  // ---- one more entry ---------------------------------------------------------------------------------

  lemma StreamSend(wire: seq<Sent>, from: nat, view: string, x: Sent)
    requires from <= |wire|
    ensures Stream(wire + [x], from, view) ==
            if x.view == view then Stream(wire, from, view) + [x.envelope] else Stream(wire, from, view)
  {
    assert (wire + [x])[..|wire|] == wire;
    assert Stream(wire, from, view) + [] == Stream(wire, from, view);
  }

  lemma StreamFromEnd(wire: seq<Sent>, view: string)
    ensures Stream(wire, |wire|, view) == []
  {}

  lemma EventsAppend(s: seq<Envelope>, e: Envelope)
    ensures EventsOf(s + [e]) == if e.Event? then EventsOf(s) + [e.text] else EventsOf(s)
  {
    assert (s + [e])[..|s|] == s;
    assert EventsOf(s) + [] == EventsOf(s);
  }

  lemma ReadyFirstAppend(s: seq<Envelope>, e: Envelope)
    requires ReadyFirst(s) && (Unsolicited(e) ==> Ready in s)
    ensures ReadyFirst(s + [e])
  {
    forall i | 0 <= i < |s + [e]| && Unsolicited((s + [e])[i]) ensures Ready in (s + [e])[..i] {
      assert (s + [e])[..i] == if i < |s| then s[..i] else s;
    }
  }

  lemma BacklogAppend(queued: seq<string>, emitted: seq<string>, text: string)
    requires queued == Backlog(emitted)
    ensures Enqueued(queued, text) == Backlog(emitted + [text])
  {}

  // A message that is no event leaves the gate's account as it was: a reply always, state and ready after ready.
  lemma AppendOther(gate: Gate, s: seq<Envelope>, emitted: seq<string>, at: Option<(nat, nat)>, e: Envelope)
    requires GateOk(gate, s, emitted, at) && !e.Event? && (e.StateValue? || e.Ready? ==> gate.greeted)
    ensures GateOk(gate, s + [e], emitted, at)
  {
    EventsAppend(s, e);
    if gate.greeted { ReadyFirstAppend(s, e); }
    if gate.eventsOpen { assert (s + [e])[..at.value.1] == s[..at.value.1]; }
  }

  lemma AppendEvent(gate: Gate, s: seq<Envelope>, emitted: seq<string>, at: Option<(nat, nat)>, text: string)
    requires GateOk(gate, s, emitted, at) && gate.eventsOpen
    ensures GateOk(gate, s + [Event(text)], emitted + [text], at)
  {
    hide EventsOf, ReadyFirst, Backlog;
    var n := at.value.0;
    EventsAppend(s, Event(text));
    ReadyFirstAppend(s, Event(text));
    AppendedAfter(s, Event(text), at.value.1);
    AppendedAfter(emitted, text, n);
    Concatenated(Backlog(emitted[..n]), emitted[n..], [text]);
  }

  lemma QueueEvent(gate: Gate, s: seq<Envelope>, emitted: seq<string>, at: Option<(nat, nat)>, text: string)
    requires GateOk(gate, s, emitted, at) && !gate.eventsOpen
    ensures GateOk(gate.(queued := Enqueued(gate.queued, text)), s, emitted + [text], at)
  {
    BacklogAppend(gate.queued, emitted, text);
  }

  lemma Greet(gate: Gate, s: seq<Envelope>, emitted: seq<string>, at: Option<(nat, nat)>)
    requires GateOk(gate, s, emitted, at)
    ensures GateOk(gate.(greeted := true), s + [Ready], emitted, at)
  {
    EventsAppend(s, Ready);
    if gate.greeted {
      ReadyFirstAppend(s, Ready);
    } else {
      forall i | 0 <= i < |s + [Ready]| ensures !Unsolicited((s + [Ready])[i]) { assert i < |s| ==> s[i] in s; }
    }
    assert (s + [Ready])[|s|] == Ready;
    if gate.eventsOpen { assert (s + [Ready])[..at.value.1] == s[..at.value.1]; }
  }

  // Opening delivers the backlog after everything the hook replayed.
  lemma {:induction false} EventsOfEvents(s: seq<Envelope>, texts: seq<string>)
    ensures EventsOf(s + AsEvents(texts)) == EventsOf(s) + texts
    decreases |texts|
  {
    hide EventsOf;
    if texts == [] {
      assert s + AsEvents(texts) == s && EventsOf(s) + texts == EventsOf(s);
    } else {
      var front, text := texts[..|texts| - 1], texts[|texts| - 1];
      EventsOfEvents(s, front);
      LastEvent(s, texts);
      EventsAppend(s + AsEvents(front), Event(text));
      LastText(EventsOf(s), texts);
    }
  }

  lemma LastEvent(s: seq<Envelope>, texts: seq<string>)
    requires texts != []
    ensures s + AsEvents(texts) == (s + AsEvents(texts[..|texts| - 1])) + [Event(texts[|texts| - 1])]
  {
    var front, last := AsEvents(texts[..|texts| - 1]), [Event(texts[|texts| - 1])];
    assert AsEvents(texts) == front + last;
    Concatenated(s, front, last);
  }

  lemma LastText(before: seq<string>, texts: seq<string>)
    requires texts != []
    ensures before + texts == (before + texts[..|texts| - 1]) + [texts[|texts| - 1]]
  {
    TakenApart(texts);
    Concatenated(before, texts[..|texts| - 1], [texts[|texts| - 1]]);
  }

  lemma {:induction false} EventsKeepReadyFirst(s: seq<Envelope>, texts: seq<string>)
    requires Ready in s && ReadyFirst(s)
    ensures Ready in s + AsEvents(texts) && ReadyFirst(s + AsEvents(texts))
    decreases |texts|
  {
    if texts == [] {
      assert s + AsEvents(texts) == s;
    } else {
      hide ReadyFirst;
      EventsKeepReadyFirst(s, texts[..|texts| - 1]);
      LastEvent(s, texts);
      ReadyFirstAppend(s + AsEvents(texts[..|texts| - 1]), Event(texts[|texts| - 1]));
    }
  }

  lemma NoEvents()
    ensures AsEvents([]) == []
  {}

  function AsEvents(texts: seq<string>): seq<Envelope>
    decreases |texts|
  {
    if texts == [] then [] else AsEvents(texts[..|texts| - 1]) + [Event(texts[|texts| - 1])]
  }

  lemma OpenGate(gate: Gate, s: seq<Envelope>, emitted: seq<string>, at: Option<(nat, nat)>)
    requires GateOk(gate, s, emitted, at) && gate.greeted && !gate.eventsOpen
    ensures GateOk(gate.(eventsOpen := true, queued := []), s + AsEvents(gate.queued), emitted, Some((|emitted|, |s|)))
  {
    EventsOfEvents(s, gate.queued);
    EventsKeepReadyFirst(s, gate.queued);
    assert (s + AsEvents(gate.queued))[..|s|] == s;
    assert emitted[..|emitted|] == emitted && emitted[|emitted|..] == [];
  }

  lemma {:induction false} SendEventsSeen(b: Bridge, h: History, view: string, texts: seq<string>)
    requires Since(h, view) <= |b.wire|
    ensures var c := SendEvents(b, view, texts);
            && c == b.(wire := c.wire) && |c.wire| >= |b.wire|
            && Seen(c, h, view) == Seen(b, h, view) + AsEvents(texts)
            && forall v | v != view && Since(h, v) <= |b.wire| :: Seen(c, h, v) == Seen(b, h, v)
    decreases |texts|
  {
    hide Stream, AsEvents;
    NoEvents();
    if texts == [] {
      assert Seen(b, h, view) + [] == Seen(b, h, view);
    } else {
      var front := SendEvents(b, view, texts[..|texts| - 1]);
      SendEventsSeen(b, h, view, texts[..|texts| - 1]);
      LastEvent(Seen(b, h, view), texts);
      var x := Sent(view, Event(texts[|texts| - 1]));
      StreamSend(front.wire, Since(h, view), view, x);
      forall v | v != view && Since(h, v) <= |b.wire| ensures Seen(SendEvents(b, view, texts), h, v) == Seen(b, h, v) {
        StreamSend(front.wire, Since(h, v), v, x);
      }
    }
  }

  // ---- every action keeps every view's account ----------------------------------------------------------

  // Sending one envelope to `to`, in any context, with no gate changed.
  lemma SendKeeps(b: Bridge, c: Bridge, h: History, to: string, e: Envelope)
    requires Inv(b, h) && !e.Event? && (to != "" && (e.StateValue? || e.Ready?) ==> GateOf(b, to).greeted)
    requires c.gates == b.gates && c.wire == b.wire + [Sent(to, e)]
    requires c.phase == b.phase && c.source == b.source
    ensures Inv(c, h)
  {
    forall view ensures ViewOk(c, h, view) {
      assert ViewOk(b, h, view);
      StreamSend(b.wire, Since(h, view), view, Sent(to, e));
      if view == to && view != "" && view !in h.broken {
        AppendOther(GateOf(b, view), Seen(b, h, view), Emitted(h, view), OpenedAt(h, view), e);
      }
    }
  }

  // A change outside the gates and the wire.
  lemma QuietKeeps(b: Bridge, c: Bridge, h: History)
    requires Inv(b, h) && c.gates == b.gates && c.wire == b.wire
    requires (c.phase == b.phase && c.source == b.source) || c.phase != InHello
    ensures Inv(c, h)
  {
    forall view ensures ViewOk(c, h, view) { assert ViewOk(b, h, view); }
  }

  lemma EmitKeeps(b: Bridge, h: History, to: string, text: string)
    requires Inv(b, h)
    ensures Inv(Emit(b, to, text), Note(h, b, AEmit(to, text)))
  {
    hide GateOk, Stream, Enqueued;
    var c, k := Emit(b, to, text), Note(h, b, AEmit(to, text));
    if to != "" {
      forall view ensures ViewOk(c, k, view) {
        assert ViewOk(b, h, view);
        if view == to { EmittedHere(b, h, to, text); } else { EmittedElsewhere(b, h, to, text, view); }
      }
      assert GateOf(c, "") == GateOf(b, "");
    }
  }

  lemma EmittedHere(b: Bridge, h: History, to: string, text: string)
    requires to != "" && ViewOk(b, h, to)
    ensures ViewOk(Emit(b, to, text), Note(h, b, AEmit(to, text)), to)
  {
    hide GateOk, Stream, Enqueued;
    var gate, s, emitted, at := GateOf(b, to), Seen(b, h, to), Emitted(h, to), OpenedAt(h, to);
    if gate.eventsOpen { StreamSend(b.wire, Since(h, to), to, Sent(to, Event(text))); }
    if to !in h.broken {
      if gate.eventsOpen { AppendEvent(gate, s, emitted, at, text); } else { QueueEvent(gate, s, emitted, at, text); }
    }
  }

  lemma EmittedElsewhere(b: Bridge, h: History, to: string, text: string, view: string)
    requires to != "" && view != to && ViewOk(b, h, view)
    ensures ViewOk(Emit(b, to, text), Note(h, b, AEmit(to, text)), view)
  {
    hide GateOk, Stream, Enqueued;
    if GateOf(b, to).eventsOpen { StreamSend(b.wire, Since(h, view), view, Sent(to, Event(text))); }
  }

  // Retiring a document starts its view's account anew.
  lemma RetireKeeps(b: Bridge, c: Bridge, h: History, gone: string)
    requires Inv(b, h) && c.wire == b.wire && c.phase == b.phase && c.source == b.source
    requires GateOf(c, gone) == Closed && forall view | view != gone :: GateOf(c, view) == GateOf(b, view)
    ensures Inv(c, NoteRetired(h, b, gone))
  {
    var k := NoteRetired(h, b, gone);
    forall view ensures ViewOk(c, k, view) {
      assert ViewOk(b, h, view);
      if view == gone { StreamFromEnd(b.wire, view); }
    }
  }

  lemma BeginHelloKeeps(b: Bridge, h: History, to: string)
    requires Inv(b, h)
    ensures Inv(BeginHello(b, to), h)
  {
    var c := BeginHello(b, to);
    forall view ensures ViewOk(c, h, view) {
      assert ViewOk(b, h, view);
      if to != "" { StreamSend(b.wire, Since(h, view), view, Sent(to, Ready)); }
      if view == to && view != "" && view !in h.broken {
        Greet(GateOf(b, view), Seen(b, h, view), Emitted(h, view), OpenedAt(h, view));
      }
    }
  }

  lemma EndHelloKeeps(b: Bridge, h: History)
    requires Inv(b, h) && b.phase == InHello
    ensures Inv(EndHello(b), Note(h, b, AEndHello))
  {
    hide EventsOf, ReadyFirst, Backlog, Stream, AsEvents;
    NoEvents();
    var to, gate := b.source, GateOf(b, b.source);
    var u := b.(gates := b.gates[to := gate.(eventsOpen := true, queued := [])]);
    var c, k := EndHello(b), Note(h, b, AEndHello);
    assert ViewOk(b, h, to);
    SendEventsSeen(u, h, to, gate.queued);
    forall view ensures ViewOk(c, k, view) {
      assert ViewOk(b, h, view);
      assert Seen(u, h, view) == Seen(b, h, view);
      if view == to && view != "" && view !in h.broken {
        if gate.eventsOpen {
          assert Seen(c, k, view) == Seen(b, h, view) + [] == Seen(b, h, view);
        } else {
          OpenGate(gate, Seen(b, h, view), Emitted(h, view), OpenedAt(h, view));
        }
      }
    }
  }

  lemma {:induction false} EachKeeps(b: Bridge, h: History, code: string, order: seq<nat>)
    requires Inv(b, h)
    ensures Inv(RejectEach(b, code, order), h)
    ensures var c := RejectEach(b, code, order); c.gates == b.gates && c.phase == b.phase && c.source == b.source
    decreases |order|
  {
    hide Inv;
    if order != [] {
      var u, token := RejectEach(b, code, order[..|order| - 1]), order[|order| - 1];
      EachKeeps(b, h, code, order[..|order| - 1]);
      RejectToKeeps(u, h, token, code);
    }
  }

  lemma RejectToKeeps(b: Bridge, h: History, token: nat, code: string)
    requires Inv(b, h)
    ensures Inv(RejectTo(b, token, code), h)
  {
    hide Inv;
    if token in b.pending && b.pending[token].view != "" {
      SendKeeps(b, RejectTo(b, token, code), h, b.pending[token].view, Error(b.pending[token].requestId, code));
    } else {
      QuietKeeps(b, RejectTo(b, token, code), h);
    }
  }

  lemma RespondToKeeps(b: Bridge, h: History, token: nat, payload: string)
    requires Inv(b, h)
    ensures Inv(RespondTo(b, token, payload), h)
  {
    hide Inv;
    if token in b.pending && b.pending[token].view != "" {
      SendKeeps(b, RespondTo(b, token, payload), h, b.pending[token].view, Reply(b.pending[token].requestId, payload));
    } else {
      QuietKeeps(b, RespondTo(b, token, payload), h);
    }
  }

  lemma DirectKeeps(b: Bridge, h: History, payload: string, code: string)
    requires Inv(b, h)
    ensures Inv(Respond(b, payload), h) && Inv(Reject(b, code), h)
  {
    hide Inv;
    if Unsettled(b) && b.source != "" {
      SendKeeps(b, Respond(b, payload), h, b.source, Reply(b.requestId, payload));
      SendKeeps(b, Reject(b, code), h, b.source, Error(b.requestId, code));
    } else {
      QuietKeeps(b, Respond(b, payload), h);
      QuietKeeps(b, Reject(b, code), h);
    }
  }

  lemma RequestKeeps(b: Bridge, h: History, view: string, id: string, endpoint: Endpoint)
    requires Inv(b, h)
    ensures Inv(BeginRequest(b, view, id, endpoint), h) && Inv(EndRequest(b), h)
  {
    hide Inv;
    var u := Opened(b, view, InRequest);
    QuietKeeps(b, u, h);
    QuietKeeps(u, u.(requestId := id), h);
    DirectKeeps(u.(requestId := id), h, "", "wrong-endpoint-kind");
    DirectKeeps(u.(requestId := id), h, "", "unknown-endpoint");
    DirectKeeps(u.(requestId := id), h, "", "request-capacity");
    DirectKeeps(b, h, "", "internal");
    QuietKeeps(Reject(b, "internal"), EndRequest(b), h);
  }

  lemma PublishKeeps(b: Bridge, h: History, view: string, mod: string, key: string, value: string)
    requires Inv(b, h)
    ensures Inv(Publish(b, view, mod, key, value), h)
  {
    hide Inv;
    if view != "" && GateOf(b, view).greeted { SendKeeps(b, Publish(b, view, mod, key, value), h, view, StateValue(mod, key, value)); }
  }

  lemma ActKeeps(b: Bridge, h: History, a: Action)
    requires Inv(b, h) && Enabled(b, a)
    ensures Inv(Act(b, a), Note(h, b, a))
  {
    hide Inv;
    match a
    case ARespond(payload) => DirectKeeps(b, h, payload, "");
    case AReject(code) => DirectKeeps(b, h, "", code);
    case ADefer(deadline) => QuietKeeps(b, Act(b, a), h);
    case ARespondTo(token, payload) => RespondToKeeps(b, h, token, payload);
    case ARejectTo(token, code) => RejectToKeeps(b, h, token, code);
    case ARejectAll(code, order) => EachKeeps(b, h, code, order);
    case ATick(_, order) => EachKeeps(b, h, "no-response", order);
    case AEmit(view, text) => EmitKeeps(b, h, view, text);
    case APublish(view, mod, key, value) => PublishKeeps(b, h, view, mod, key, value);
    case ACreated(view) => RetireKeeps(b, Act(b, a), h, view);
    case ADestroyed(view) => RetireKeeps(b, Act(b, a), h, view);
    case ABeginSend(_) => QuietKeeps(b, Act(b, a), h);
    case AEndSend => QuietKeeps(b, Act(b, a), h);
    case ABeginRequest(view, id, endpoint) => RequestKeeps(b, h, view, id, endpoint);
    case AEndRequest => RequestKeeps(b, h, "", "", NoEndpoint);
    case ABeginHello(view) => BeginHelloKeeps(b, h, view);
    case AEndHello => EndHelloKeeps(b, h);
    case ATokensTaken(_) => QuietKeeps(b, Act(b, a), h);
  }

  // ---- runs --------------------------------------------------------------------------------------------

  datatype World = World(b: Bridge, h: History)

  predicate Leads(w: World, a: Action, v: World) {
    Enabled(w.b, a) && v == World(Act(w.b, a), Note(w.h, w.b, a))
  }

  predicate Execution(worlds: seq<World>, actions: seq<Action>) {
    && |worlds| == |actions| + 1 && worlds[0] == World(Initial, NoHistory)
    && forall i | 0 <= i < |actions| :: Leads(worlds[i], actions[i], worlds[i + 1])
  }

  lemma {:induction false} ExecutionKeeps(worlds: seq<World>, actions: seq<Action>, n: nat)
    requires Execution(worlds, actions) && n <= |actions|
    ensures Inv(worlds[n].b, worlds[n].h)
  {
    if n > 0 {
      hide Inv;
      ExecutionKeeps(worlds, actions, n - 1);
      assert Leads(worlds[n - 1], actions[n - 1], worlds[n]);
      ActKeeps(worlds[n - 1].b, worlds[n - 1].h, actions[n - 1]);
    }
  }

  // Within one document every state value and event is preceded by ready, and before ready it sees only
  // answers to its requests.
  lemma ReadyComesFirst(worlds: seq<World>, actions: seq<Action>, n: nat, view: string)
    requires Execution(worlds, actions) && n <= |actions| && view != "" && view !in worlds[n].h.broken
    ensures ReadyFirst(Seen(worlds[n].b, worlds[n].h, view))
    ensures GateOf(worlds[n].b, view).greeted <==> Ready in Seen(worlds[n].b, worlds[n].h, view)
  {
    ExecutionKeeps(worlds, actions, n);
    var s := Seen(worlds[n].b, worlds[n].h, view);
    assert ViewOk(worlds[n].b, worlds[n].h, view);
    assert forall i | 0 <= i < |s| :: s[i] in s;
  }

  // The events of one document: none before its gate opens; then the newest 64 emitted while it was closed,
  // after everything the hello replayed; then every later one in the order emitted, none lost or repeated.
  lemma EventsArriveInOrder(worlds: seq<World>, actions: seq<Action>, n: nat, view: string)
    requires Execution(worlds, actions) && n <= |actions| && view != "" && view !in worlds[n].h.broken
    ensures var b, h := worlds[n].b, worlds[n].h;
            var s, emitted := Seen(b, h, view), Emitted(h, view);
            if !GateOf(b, view).eventsOpen then EventsOf(s) == []
            else view in h.openedAt &&
                 var (closedCount, replayed) := h.openedAt[view];
                 && closedCount <= |emitted| && replayed <= |s|
                 && Ready in s[..replayed] && EventsOf(s[..replayed]) == []
                 && EventsOf(s) == Backlog(emitted[..closedCount]) + emitted[closedCount..]
  {
    ExecutionKeeps(worlds, actions, n);
    assert ViewOk(worlds[n].b, worlds[n].h, view);
  }

  // A gate once open stays open, and its opening is not moved, until the view's document is retired:
  // a second hello opens nothing and repeats nothing.
  lemma SecondHelloRepeatsNothing(b: Bridge, h: History, a: Action, view: string)
    requires Inv(b, h) && Enabled(b, a) && view != "" && view !in h.broken && GateOf(b, view).eventsOpen
    requires !(a.ACreated? && a.view == view) && !(a.ADestroyed? && a.view == view)
    ensures GateOf(Act(b, a), view).eventsOpen && OpenedAt(Note(h, b, a), view) == OpenedAt(h, view)
    ensures a.ABeginHello? || a.AEndHello? ==> EventsOf(Seen(Act(b, a), Note(h, b, a), view)) == EventsOf(Seen(b, h, view))
  {
    hide Inv;
    assert ViewOk(b, h, view) by { InvView(b, h, view); }
    ActKeeps(b, h, a);
    InvView(Act(b, a), Note(h, b, a), view);
    GateStays(b, a, view);
  }

  lemma InvView(b: Bridge, h: History, view: string)
    requires Inv(b, h)
    ensures ViewOk(b, h, view)
  {}

  lemma GateStays(b: Bridge, a: Action, view: string)
    requires Enabled(b, a) && GateOf(b, view).eventsOpen
    requires !(a.ACreated? && a.view == view) && !(a.ADestroyed? && a.view == view)
    ensures GateOf(Act(b, a), view).eventsOpen
  {
    match a
    case ARejectAll(code, order) => EachGates(b, code, order);
    case ATick(_, order) => EachGates(b, "no-response", order);
    case AEndHello =>
      SendEventsSeen(b.(gates := b.gates[b.source := GateOf(b, b.source).(eventsOpen := true, queued := [])]), NoHistory, b.source, GateOf(b, b.source).queued);
    case _ =>
  }

  lemma {:induction false} EachGates(b: Bridge, code: string, order: seq<nat>)
    ensures RejectEach(b, code, order).gates == b.gates
    decreases |order|
  {
    if order != [] { EachGates(b, code, order[..|order| - 1]); }
  }

  // ---- hooks that retire the page they greet ---------------------------------------------------------------

  predicate Retires(a: Action, view: string) {
    (a.ACreated? && a.view == view) || (a.ADestroyed? && a.view == view)
  }

  // A hello of `view` begins at step i; its hook's calls run up to step j, which may end it.
  predicate HookOf(worlds: seq<World>, actions: seq<Action>, i: nat, j: nat, view: string) {
    Execution(worlds, actions) && i < j < |worlds| && actions[i] == ABeginHello(view) && forall k | i < k < j :: !actions[k].AEndHello?
  }

  // What one call inside a hook does to the context and to one view's greeting.
  lemma HookCall(b: Bridge, a: Action, view: string)
    requires Enabled(b, a) && b.phase == InHello && !a.AEndHello?
    ensures Act(b, a).phase == InHello && Act(b, a).source == b.source
    ensures GateOf(Act(b, a), view).greeted == (GateOf(b, view).greeted && !Retires(a, view))
  {
    match a
    case ARejectAll(code, order) => EachGates(b, code, order); EachPhase(b, code, order);
    case ATick(_, order) => EachGates(b, "no-response", order); EachPhase(b, "no-response", order);
    case _ =>
  }

  lemma {:induction false} EachPhase(b: Bridge, code: string, order: seq<nat>)
    ensures RejectEach(b, code, order).phase == b.phase && RejectEach(b, code, order).source == b.source
    decreases |order|
  {
    if order != [] { EachPhase(b, code, order[..|order| - 1]); }
  }

  // Inside a hello its document stays greeted if and only if the hook has not retired it: only a hello greets.
  lemma {:induction false} GreetedExactlyUntilRetired(worlds: seq<World>, actions: seq<Action>, i: nat, j: nat, view: string)
    requires HookOf(worlds, actions, i, j, view)
    ensures worlds[j].b.phase == InHello && worlds[j].b.source == view
    ensures GateOf(worlds[j].b, view).greeted <==> forall k | i < k < j :: !Retires(actions[k], view)
    decreases j
  {
    hide Act;
    assert Leads(worlds[j - 1], actions[j - 1], worlds[j]);
    if j == i + 1 {
      HelloGreets(worlds[i].b, view);
    } else {
      GreetedExactlyUntilRetired(worlds, actions, i, j - 1, view);
      HookCall(worlds[j - 1].b, actions[j - 1], view);
    }
  }

  lemma HelloGreets(b: Bridge, view: string)
    requires Enabled(b, ABeginHello(view))
    ensures var c := Act(b, ABeginHello(view)); c.phase == InHello && c.source == view && GateOf(c, view).greeted
  {}

  // A hello that ends opens the gate of its view, and the open gate is a greeted one if and only if the hook
  // did not retire the document it greeted.
  lemma HelloOpensAGreetedGateExactlyWhen(worlds: seq<World>, actions: seq<Action>, i: nat, j: nat, view: string)
    requires HookOf(worlds, actions, i, j, view) && j < |actions| && actions[j] == AEndHello
    ensures GateOf(worlds[j + 1].b, view).eventsOpen
    ensures GateOf(worlds[j + 1].b, view).greeted <==> forall k | i < k < j :: !Retires(actions[k], view)
  {
    GreetedExactlyUntilRetired(worlds, actions, i, j, view);
    assert Leads(worlds[j], actions[j], worlds[j + 1]);
    var b := worlds[j].b;
    var g := GateOf(b, view);
    SendEventsSeen(b.(gates := b.gates[view := g.(eventsOpen := true, queued := [])]), NoHistory, view, g.queued);
  }

  // No hook retires the document it greets.
  predicate HooksKeepTheirPage(worlds: seq<World>, actions: seq<Action>, view: string) {
    forall k | 0 <= k < |actions| && k < |worlds| && Retires(actions[k], view) :: !(worlds[k].b.phase == InHello && worlds[k].b.source == view)
  }

  lemma {:induction false} NeverBroken(worlds: seq<World>, actions: seq<Action>, n: nat, view: string)
    requires Execution(worlds, actions) && n <= |actions| && HooksKeepTheirPage(worlds, actions, view)
    ensures view !in worlds[n].h.broken
  {
    if n > 0 {
      hide Act;
      NeverBroken(worlds, actions, n - 1, view);
      assert Leads(worlds[n - 1], actions[n - 1], worlds[n]);
    }
  }

  // As long as no hook does, as with the one the runtime installs, every document of every view sees ready
  // first and its events complete and in order.
  lemma EveryDocumentSeesItsEventsInOrder(worlds: seq<World>, actions: seq<Action>, n: nat, view: string)
    requires Execution(worlds, actions) && n <= |actions| && view != "" && HooksKeepTheirPage(worlds, actions, view)
    ensures var b, h := worlds[n].b, worlds[n].h;
            var s, emitted := Seen(b, h, view), Emitted(h, view);
            && ReadyFirst(s) && (GateOf(b, view).greeted <==> Ready in s)
            && if !GateOf(b, view).eventsOpen then EventsOf(s) == []
               else view in h.openedAt &&
                    var (closedCount, replayed) := h.openedAt[view];
                    && closedCount <= |emitted| && replayed <= |s|
                    && Ready in s[..replayed] && EventsOf(s[..replayed]) == []
                    && EventsOf(s) == Backlog(emitted[..closedCount]) + emitted[closedCount..]
  {
    NeverBroken(worlds, actions, n, view);
    ReadyComesFirst(worlds, actions, n, view);
    EventsArriveInOrder(worlds, actions, n, view);
  }

  // So a document can see an event without ready: say hello, let the hook replace the page, emit.
  lemma HookThatReplacesItsPageOvertakesReady(view: string, text: string)
    requires view != ""
    ensures var greeting := BeginHello(Initial, view);
            var replaced := Created(greeting, view);
            var h := Note(NoHistory, greeting, ACreated(view));
            var b := Emit(EndHello(replaced), view, text);
            && b.wire == [Sent(view, Ready), Sent(view, Event(text))] && view in h.broken
            && Seen(b, h, view) == [Event(text)] && !ReadyFirst(Seen(b, h, view))
  {
    var greeting := BeginHello(Initial, view);
    var h := Note(NoHistory, greeting, ACreated(view));
    var b := Emit(EndHello(Created(greeting, view)), view, text);
    assert b.wire == [Sent(view, Ready)] + [Sent(view, Event(text))];
    StreamFromEnd([Sent(view, Ready)], view);
    StreamSend([Sent(view, Ready)], 1, view, Sent(view, Event(text)));
    assert Seen(b, h, view) == [Event(text)];
    assert Unsolicited([Event(text)][0]) && Ready !in [Event(text)][..0];
  }
}
