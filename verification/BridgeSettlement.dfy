// Exactly-once settlement. The history beside the bridge numbers every dispatched request occurrence and
// records what became of it; `lives` counts how often a view's document was retired.
module BridgeSettlement {
  import opened Wrappers
  import opened BridgeModel

  // ---- history -----------------------------------------------------------------------------------

  // One dispatched request: who asked, under which page id, in which of the view's documents. `orphaned`
  // says that its own handler retired that document before settling.
  datatype Occurrence = Occurrence(view: string, requestId: string, life: nat, orphaned: bool)

  datatype Status =
    | Open
    | Deferred(token: nat)
    | Answered(at: nat, life: nat)    // by wire entry `at`, in the view's document number `life`
    | Unaddressed                     // settled, but its view has no name to send to
    | Reaped

  datatype History = History(lives: map<string, nat>, occs: seq<Occurrence>, status: seq<Status>,
                             answers: map<nat, nat>, tokenOf: map<nat, nat>)

  const NoHistory := History(map[], [], [], map[], map[])

  function Life(h: History, view: string): nat {
    if view in h.lives then h.lives[view] else 0
  }

  function NoteAnswer(h: History, b: Bridge, o: nat, view: string): History
    requires o < |h.status|
  {
    if view == "" then h.(status := h.status[o := Unaddressed])
    else h.(status := h.status[o := Answered(|b.wire|, Life(h, view))], answers := h.answers[|b.wire| := o])
  }

  function NoteDirect(h: History, b: Bridge): History {
    if !Unsettled(b) || h.status == [] then h else NoteAnswer(h, b, |h.status| - 1, b.source)
  }

  function NoteDefer(h: History, b: Bridge): History {
    if !Unsettled(b) || h.status == [] then h
    else h.(status := h.status[|h.status| - 1 := Deferred(b.nextToken)], tokenOf := h.tokenOf[b.nextToken := |h.status| - 1])
  }

  function NoteToken(h: History, b: Bridge, token: nat): History {
    if token !in b.pending || token !in h.tokenOf || h.tokenOf[token] >= |h.status| then h
    else NoteAnswer(h, b, h.tokenOf[token], b.pending[token].view)
  }

  function NoteEach(h: History, b: Bridge, code: string, order: seq<nat>): History
    decreases |order|
  {
    if order == [] then h else
    NoteToken(NoteEach(h, b, code, order[..|order| - 1]), RejectEach(b, code, order[..|order| - 1]), order[|order| - 1])
  }

  predicate Reaps(b: Bridge, view: string, s: Status) {
    s.Deferred? && s.token in b.pending && b.pending[s.token].view == view
  }

  function NoteRetired(h: History, b: Bridge, view: string): History {
    var n := |h.occs|;
    h.(lives := h.lives[view := Life(h, view) + 1],
       occs := if Unsettled(b) && b.source == view && n > 0 then h.occs[n - 1 := h.occs[n - 1].(orphaned := true)] else h.occs,
       status := seq(|h.status|, i requires 0 <= i < |h.status| => if Reaps(b, view, h.status[i]) then Reaped else h.status[i]))
  }

  function NoteRequest(h: History, view: string, id: string): History {
    h.(occs := h.occs + [Occurrence(view, id, Life(h, view), false)], status := h.status + [Open])
  }

  function NoteBegin(h: History, b: Bridge, view: string, id: string, endpoint: Endpoint): History {
    if !ValidId(id) then h else
    var u := Opened(b, view, InRequest).(requestId := id);
    var noted := NoteRequest(h, view, id);
    if endpoint == RequestEndpoint && |Owned(b, view)| < MAX_PENDING then noted else NoteDirect(noted, u)
  }

  function Note(h: History, b: Bridge, a: Action): History {
    match a
    case ARespond(_) => NoteDirect(h, b)
    case AReject(_) => NoteDirect(h, b)
    case AEndRequest => NoteDirect(h, b)
    case ADefer(_) => NoteDefer(h, b)
    case ARespondTo(token, _) => NoteToken(h, b, token)
    case ARejectTo(token, _) => NoteToken(h, b, token)
    case ARejectAll(code, order) => NoteEach(h, b, code, order)
    case ATick(_, order) => NoteEach(h, b, "no-response", order)
    case ACreated(view) => NoteRetired(h, b, view)
    case ADestroyed(view) => NoteRetired(h, b, view)
    case ABeginRequest(view, id, endpoint) => NoteBegin(h, b, view, id, endpoint)
    case _ => h
  }

  // ---- the invariant -------------------------------------------------------------------------------

  predicate IsSettlement(e: Envelope, id: string) {
    (e.Reply? && e.requestId == id) || (e.Error? && e.requestId == id)
  }

  predicate Settles(e: Envelope) {
    e.Reply? || e.Error?
  }

  // The document number `life` is the occurrence's own exactly when its handler did not retire it.
  predicate SameDocument(occ: Occurrence, life: nat) {
    occ.life <= life && (occ.life == life <==> !occ.orphaned)
  }

  predicate StatusOk(b: Bridge, h: History, o: nat)
    requires o < |h.occs| == |h.status|
  {
    var occ := h.occs[o];
    match h.status[o]
    case Open =>
      && o == |h.occs| - 1 && Unsettled(b) && b.source == occ.view && b.requestId == occ.requestId
      && SameDocument(occ, Life(h, occ.view))
    case Deferred(token) =>
      && token in b.pending && token in h.tokenOf && h.tokenOf[token] == o
      && b.pending[token].view == occ.view && b.pending[token].requestId == occ.requestId
      && SameDocument(occ, Life(h, occ.view))
    case Answered(at, life) =>
      && occ.view != "" && at < |b.wire| && at in h.answers && h.answers[at] == o
      && b.wire[at].view == occ.view && IsSettlement(b.wire[at].envelope, occ.requestId)
      && SameDocument(occ, life)
    case Unaddressed => occ.view == ""
    case Reaped => Life(h, occ.view) > occ.life
  }

  // Every settlement on the wire answers the occurrence it is recorded for.
  predicate AnswersOk(b: Bridge, h: History) {
    && (forall at | at in h.answers ::
          at < |b.wire| && h.answers[at] < |h.status| && h.status[h.answers[at]].Answered? && h.status[h.answers[at]].at == at)
    && (forall i | 0 <= i < |b.wire| :: Settles(b.wire[i].envelope) <==> i in h.answers)
  }

  predicate TokensOk(b: Bridge, h: History) {
    && b.nextToken > 0
    && (forall t | t in h.tokenOf :: 0 < t < b.nextToken && h.tokenOf[t] < |h.status|)
    && (forall t | t in b.pending :: t in h.tokenOf && h.status[h.tokenOf[t]] == Deferred(t))
  }

  predicate Inv(b: Bridge, h: History) {
    && |h.occs| == |h.status| && AnswersOk(b, h) && TokensOk(b, h)
    && (forall o | 0 <= o < |h.occs| :: StatusOk(b, h, o))
    && (Unsettled(b) ==> h.status != [] && h.status[|h.status| - 1] == Open)
  }

  // ---- every action keeps it --------------------------------------------------------------------------

  // A message that settles nothing, and gate changes, leave every account as it was.
  lemma SendKeeps(b: Bridge, h: History, view: string, e: Envelope)
    requires Inv(b, h) && !Settles(e)
    ensures Inv(Send(b, view, e), h)
  {
    var c := Send(b, view, e);
    forall o | 0 <= o < |h.occs| ensures StatusOk(c, h, o) { assert StatusOk(b, h, o); }
  }

  lemma GatesKeep(b: Bridge, c: Bridge, h: History)
    requires Inv(b, h) && c == b.(gates := c.gates, phase := c.phase, nextToken := c.nextToken) && b.nextToken <= c.nextToken
    ensures Inv(c, h)
  {
    forall o | 0 <= o < |h.occs| ensures StatusOk(c, h, o) { assert StatusOk(b, h, o); }
  }

  // Opening or clearing the context when nothing in it is unsettled.
  lemma ContextKeeps(b: Bridge, c: Bridge, h: History)
    requires Inv(b, h) && !Unsettled(b) && !Unsettled(c)
    requires c == b.(phase := c.phase, source := c.source, requestId := c.requestId, settled := c.settled)
    ensures Inv(c, h)
  {
    forall o | 0 <= o < |h.occs| ensures StatusOk(c, h, o) { assert StatusOk(b, h, o); }
  }

  lemma AnswersAfter(b: Bridge, c: Bridge, h: History, o: nat, view: string, e: Envelope)
    requires AnswersOk(b, h) && o < |h.status| && !h.status[o].Answered? && Settles(e)
    requires c.wire == SendNamed(b, view, e).wire
    ensures AnswersOk(c, NoteAnswer(h, b, o, view))
  {}

  // Statuses other than the one just settled are untouched.
  lemma OthersAfter(b: Bridge, c: Bridge, h: History, o: nat, view: string, e: Envelope, p: nat)
    requires |h.occs| == |h.status| && o < |h.occs| && p < |h.occs| && p != o && StatusOk(b, h, p)
    requires AnswersOk(b, h) && c.wire == SendNamed(b, view, e).wire && (h.status[p].Open? ==> Unsettled(c) && c.source == b.source && c.requestId == b.requestId)
    requires forall t | t in b.pending && h.status[p] == Deferred(t) :: t in c.pending && c.pending[t] == b.pending[t]
    ensures StatusOk(c, NoteAnswer(h, b, o, view), p)
  {
    hide IsSettlement, SameDocument, AnswersOk;
    var k := NoteAnswer(h, b, o, view);
    assert k.status[p] == h.status[p] && k.occs == h.occs && k.tokenOf == h.tokenOf && k.lives == h.lives;
    if h.status[p].Answered? {
      assert h.status[p].at < |b.wire| && c.wire[h.status[p].at] == b.wire[h.status[p].at];
    }
  }

  lemma AnsweredAfter(b: Bridge, c: Bridge, h: History, o: nat, view: string, e: Envelope)
    requires |h.occs| == |h.status| && o < |h.occs| && h.occs[o].view == view && SameDocument(h.occs[o], Life(h, view))
    requires IsSettlement(e, h.occs[o].requestId) && c.wire == SendNamed(b, view, e).wire
    ensures StatusOk(c, NoteAnswer(h, b, o, view), o)
  {}

  lemma DirectKeeps(b: Bridge, h: History, e: Envelope)
    requires Inv(b, h) && Unsettled(b) && IsSettlement(e, b.requestId)
    ensures Inv(SendNamed(b.(settled := true), b.source, e), NoteDirect(h, b))
  {
    hide AnswersOk, TokensOk, StatusOk, IsSettlement, SameDocument;
    var c, k := SendNamed(b.(settled := true), b.source, e), NoteDirect(h, b);
    var last := |h.occs| - 1;
    TokensAfter(b, c, h, k, last);
    OpenIsCurrent(b, h, last);
    assert Settles(e) by { SettlementSettles(e, b.requestId); }
    AnswersAfter(b, c, h, last, b.source, e);
    AnsweredAfter(b, c, h, last, b.source, e);
    forall o | 0 <= o < last ensures StatusOk(c, k, o) {
      assert StatusOk(b, h, o);
      NotLastNotOpen(b, h, o);
      OthersAfter(b, c, h, last, b.source, e, o);
    }
  }

  lemma TokensAfter(b: Bridge, c: Bridge, h: History, k: History, last: nat)
    requires TokensOk(b, h) && c.nextToken == b.nextToken && c.pending == b.pending && k.tokenOf == h.tokenOf
    requires last < |k.status| == |h.status| && h.status[last] == Open && forall o | 0 <= o < |h.status| && o != last :: k.status[o] == h.status[o]
    ensures TokensOk(c, k)
  {}

  lemma SettlementSettles(e: Envelope, id: string)
    requires IsSettlement(e, id)
    ensures Settles(e)
  {}

  lemma OpenIsCurrent(b: Bridge, h: History, o: nat)
    requires |h.occs| == |h.status| && o < |h.occs| && h.status[o] == Open && StatusOk(b, h, o)
    ensures h.occs[o].view == b.source && h.occs[o].requestId == b.requestId && SameDocument(h.occs[o], Life(h, b.source))
  {}

  lemma NotLastNotOpen(b: Bridge, h: History, o: nat)
    requires |h.occs| == |h.status| && o < |h.occs| - 1 && StatusOk(b, h, o)
    ensures h.status[o] != Open
  {}

  lemma RespondKeeps(b: Bridge, h: History, payload: string)
    requires Inv(b, h)
    ensures Inv(Respond(b, payload), NoteDirect(h, b)) && !Unsettled(Respond(b, payload))
  {
    hide Inv;
    if Unsettled(b) { DirectKeeps(b, h, Reply(b.requestId, payload)); }
  }

  lemma RejectKeeps(b: Bridge, h: History, code: string)
    requires Inv(b, h)
    ensures Inv(Reject(b, code), NoteDirect(h, b)) && !Unsettled(Reject(b, code))
  {
    hide Inv;
    if Unsettled(b) { DirectKeeps(b, h, Error(b.requestId, code)); }
  }

  lemma DeferKeeps(b: Bridge, h: History, deadline: int)
    requires Inv(b, h)
    ensures Inv(Defer(b, deadline).1, NoteDefer(h, b))
  {
    if Unsettled(b) {
      var c, k := Defer(b, deadline).1, NoteDefer(h, b);
      assert StatusOk(b, h, |h.occs| - 1);
      assert b.nextToken !in h.tokenOf;
      forall o | 0 <= o < |k.occs| ensures StatusOk(c, k, o) { assert StatusOk(b, h, o); }
    }
  }

  lemma SettleKeeps(b: Bridge, h: History, token: nat, e: Envelope)
    requires Inv(b, h) && token in b.pending && IsSettlement(e, b.pending[token].requestId)
    ensures Inv(Settle(b, token, e), NoteToken(h, b, token))
  {
    hide AnswersOk, StatusOk, IsSettlement, SameDocument;
    var c, k, o, view := Settle(b, token, e), NoteToken(h, b, token), h.tokenOf[token], b.pending[token].view;
    assert Settles(e) by { SettlementSettles(e, b.pending[token].requestId); }
    assert StatusOk(b, h, o);
    DeferredIsPending(b, h, o, token);
    AnswersAfter(b, c, h, o, view, e);
    AnsweredAfter(b, c, h, o, view, e);
    forall p | 0 <= p < |h.occs| && p != o ensures StatusOk(c, k, p) {
      assert StatusOk(b, h, p);
      DistinctTokens(b, h, p, token);
      OthersAfter(b, c, h, o, view, e, p);
    }
  }

  lemma DeferredIsPending(b: Bridge, h: History, o: nat, token: nat)
    requires |h.occs| == |h.status| && o < |h.occs| && h.status[o] == Deferred(token) && StatusOk(b, h, o)
    ensures token in b.pending && h.occs[o].view == b.pending[token].view && h.occs[o].requestId == b.pending[token].requestId
    ensures SameDocument(h.occs[o], Life(h, h.occs[o].view))
  {}

  lemma DistinctTokens(b: Bridge, h: History, p: nat, token: nat)
    requires |h.occs| == |h.status| && p < |h.occs| && StatusOk(b, h, p) && token in h.tokenOf && h.tokenOf[token] != p
    ensures h.status[p] != Deferred(token)
    ensures h.status[p] == Open ==> Unsettled(b)
  {}

  lemma RejectToKeeps(b: Bridge, h: History, token: nat, code: string)
    requires Inv(b, h)
    ensures Inv(RejectTo(b, token, code), NoteToken(h, b, token))
  {
    hide Inv;
    if token in b.pending { SettleKeeps(b, h, token, Error(b.pending[token].requestId, code)); }
  }

  lemma {:induction false} RejectEachKeeps(b: Bridge, h: History, code: string, order: seq<nat>)
    requires Inv(b, h)
    ensures Inv(RejectEach(b, code, order), NoteEach(h, b, code, order))
    decreases |order|
  {
    hide Inv;
    if order != [] {
      var front := order[..|order| - 1];
      RejectEachKeeps(b, h, code, front);
      RejectToKeeps(RejectEach(b, code, front), NoteEach(h, b, code, front), order[|order| - 1], code);
    }
  }

  lemma RetireKeeps(b: Bridge, h: History, view: string)
    requires Inv(b, h)
    ensures Inv(Destroyed(b, view), NoteRetired(h, b, view))
  {
    hide StatusOk, AnswersOk, TokensOk;
    var c, k := Destroyed(b, view), NoteRetired(h, b, view);
    forall o | 0 <= o < |k.occs| ensures StatusOk(c, k, o) { StatusRetired(b, h, view, o); }
    AnswersRetired(b, h, view);
    TokensRetired(b, h, view);
  }

  lemma StatusRetired(b: Bridge, h: History, view: string, o: nat)
    requires |h.occs| == |h.status| && o < |h.occs| && StatusOk(b, h, o)
    requires Unsettled(b) ==> h.status[|h.status| - 1] == Open
    ensures StatusOk(Destroyed(b, view), NoteRetired(h, b, view), o)
  {
    hide IsSettlement;
  }

  lemma AnswersRetired(b: Bridge, h: History, view: string)
    requires AnswersOk(b, h)
    ensures AnswersOk(Destroyed(b, view), NoteRetired(h, b, view))
  {}

  lemma TokensRetired(b: Bridge, h: History, view: string)
    requires TokensOk(b, h)
    ensures TokensOk(Destroyed(b, view), NoteRetired(h, b, view))
  {}

  // A new request takes the context.
  lemma RequestOpened(u: Bridge, h: History, view: string, id: string)
    requires Inv(u, h) && u.requestId == "" && !u.settled && u.source == view && ValidId(id)
    ensures Inv(u.(requestId := id), NoteRequest(h, view, id)) && Unsettled(u.(requestId := id))
  {
    hide IsSettlement;
    var v, k := u.(requestId := id), NoteRequest(h, view, id);
    forall o | 0 <= o < |k.occs| ensures StatusOk(v, k, o) { if o < |h.occs| { assert StatusOk(u, h, o); } }
  }

  lemma BeginKeeps(b: Bridge, h: History, view: string, id: string, endpoint: Endpoint)
    requires Inv(b, h) && !Unsettled(b)
    ensures Inv(BeginRequest(b, view, id, endpoint), NoteBegin(h, b, view, id, endpoint))
  {
    hide Inv, ValidId;
    var u := Opened(b, view, InRequest);
    ContextKeeps(b, u, h);
    if ValidId(id) {
      var v, k := u.(requestId := id), NoteRequest(h, view, id);
      RequestOpened(u, h, view, id);
      RejectKeeps(v, k, "wrong-endpoint-kind");
      RejectKeeps(v, k, "unknown-endpoint");
      RejectKeeps(v, k, "request-capacity");
    }
  }

  lemma {:induction false} SendEventsKeep(b: Bridge, h: History, view: string, texts: seq<string>)
    requires Inv(b, h)
    ensures Inv(SendEvents(b, view, texts), h)
    decreases |texts|
  {
    hide Inv;
    if texts != [] {
      SendEventsKeep(b, h, view, texts[..|texts| - 1]);
      SendKeeps(SendEvents(b, view, texts[..|texts| - 1]), h, view, Event(texts[|texts| - 1]));
    }
  }

  lemma {:induction false} SendEventsContext(b: Bridge, view: string, texts: seq<string>)
    ensures SendEvents(b, view, texts) == b.(wire := SendEvents(b, view, texts).wire)
    decreases |texts|
  {
    if texts != [] { SendEventsContext(b, view, texts[..|texts| - 1]); }
  }

  // Outside a request nothing is unsettled.
  predicate PhaseOk(b: Bridge) {
    Unsettled(b) ==> b.phase == InRequest
  }

  lemma MessageKeeps(b: Bridge, h: History, a: Action)
    requires Inv(b, h) && PhaseOk(b) && Enabled(b, a)
    requires a.ABeginSend? || a.AEndSend? || a.ABeginHello? || a.AEndHello? || a.AEndRequest? || a.AEmit? || a.APublish?
    ensures Inv(Act(b, a), Note(h, b, a))
  {
    hide Inv;
    match a
    case ABeginSend(view) => ContextKeeps(b, Opened(b, view, InSend), h);
    case AEndSend => ContextKeeps(b, Cleared(b), h);
    case ABeginHello(view) =>
      var u := Opened(b, view, InHello);
      ContextKeeps(b, u, h);
      var v := u.(gates := u.gates[view := GateOf(u, view).(greeted := true)]);
      GatesKeep(u, v, h);
      SendKeeps(v, h, view, Ready);
    case AEndHello =>
      var g := GateOf(b, b.source);
      var u := b.(gates := b.gates[b.source := g.(eventsOpen := true, queued := [])]);
      GatesKeep(b, u, h);
      SendEventsKeep(u, h, b.source, g.queued);
      SendEventsContext(u, b.source, g.queued);
      ContextKeeps(SendEvents(u, b.source, g.queued), Cleared(SendEvents(u, b.source, g.queued)), h);
    case AEndRequest =>
      RejectKeeps(b, h, "internal");
      ContextKeeps(Reject(b, "internal"), Cleared(Reject(b, "internal")), NoteDirect(h, b));
    case AEmit(view, text) =>
      SendKeeps(b, h, view, Event(text));
      GatesKeep(b, b.(gates := Emit(b, view, text).gates), h);
    case APublish(view, mod, key, value) => SendKeeps(b, h, view, StateValue(mod, key, value));
  }

  lemma ActKeeps(b: Bridge, h: History, a: Action)
    requires Inv(b, h) && PhaseOk(b) && Enabled(b, a)
    ensures Inv(Act(b, a), Note(h, b, a))
  {
    hide Inv;
    match a
    case ARespond(payload) => RespondKeeps(b, h, payload);
    case AReject(code) => RejectKeeps(b, h, code);
    case ADefer(deadline) => DeferKeeps(b, h, deadline);
    case ARespondTo(token, payload) => if token in b.pending { SettleKeeps(b, h, token, Reply(b.pending[token].requestId, payload)); }
    case ARejectTo(token, code) => RejectToKeeps(b, h, token, code);
    case ARejectAll(code, order) => RejectEachKeeps(b, h, code, order);
    case ATick(_, order) => RejectEachKeeps(b, h, "no-response", order);
    case ACreated(view) =>
      RetireKeeps(b, h, view);
      GatesKeep(Destroyed(b, view), Created(b, view), NoteRetired(h, b, view));
    case ADestroyed(view) => RetireKeeps(b, h, view);
    case ABeginRequest(view, id, endpoint) => BeginKeeps(b, h, view, id, endpoint);
    case ATokensTaken(next) => GatesKeep(b, b.(nextToken := next), h);
    case _ => MessageKeeps(b, h, a);
  }

  // ---- the cap ---------------------------------------------------------------------------------------------

  // No view owns more than the cap, and a request that could still be deferred leaves room for itself.
  ghost predicate CapOk(b: Bridge) {
    && (forall view :: |Owned(b, view)| <= MAX_PENDING)
    && (Unsettled(b) ==> |Owned(b, b.source)| < MAX_PENDING)
  }

  lemma SubsetSize<T>(a: set<T>, b: set<T>)
    requires a <= b
    ensures |a| <= |b|
  {
    if a != {} {
      var x :| x in a;
      SubsetSize(a - {x}, b - {x});
    }
  }

  // Removing deferred requests keeps the cap.
  lemma FewerPending(b: Bridge, c: Bridge)
    requires CapOk(b) && (forall t | t in c.pending :: t in b.pending && c.pending[t] == b.pending[t])
    requires Unsettled(c) ==> Unsettled(b) && c.source == b.source
    ensures CapOk(c)
  {
    forall view ensures |Owned(c, view)| <= |Owned(b, view)| { SubsetSize(Owned(c, view), Owned(b, view)); }
  }

  lemma DeferCap(b: Bridge, deadline: int)
    requires CapOk(b)
    ensures CapOk(Defer(b, deadline).1)
  {
    var c := Defer(b, deadline).1;
    if Unsettled(b) {
      forall view ensures |Owned(c, view)| <= MAX_PENDING {
        if view == b.source {
          assert Owned(c, view) <= Owned(b, view) + {b.nextToken};
          SubsetSize(Owned(c, view), Owned(b, view) + {b.nextToken});
        } else {
          SubsetSize(Owned(c, view), Owned(b, view));
        }
      }
    }
  }

  lemma {:induction false} EachCap(b: Bridge, code: string, order: seq<nat>)
    ensures var c := RejectEach(b, code, order);
            && c == b.(pending := c.pending, wire := c.wire)
            && forall t | t in c.pending :: t in b.pending && c.pending[t] == b.pending[t]
    decreases |order|
  {
    if order != [] { EachCap(b, code, order[..|order| - 1]); }
  }

  lemma BeginCap(b: Bridge, view: string, id: string, endpoint: Endpoint)
    requires CapOk(b)
    ensures CapOk(BeginRequest(b, view, id, endpoint)) && PhaseOk(BeginRequest(b, view, id, endpoint))
  {
    var c := BeginRequest(b, view, id, endpoint);
    assert c.pending == b.pending;
    forall v ensures Owned(c, v) == Owned(b, v) {}
  }

  lemma CapKeeps(b: Bridge, a: Action)
    requires CapOk(b) && PhaseOk(b) && Enabled(b, a)
    ensures CapOk(Act(b, a)) && PhaseOk(Act(b, a))
  {
    hide CapOk;
    match a
    case ADefer(deadline) => DeferCap(b, deadline);
    case ARejectAll(code, order) => EachCap(b, code, order); FewerPending(b, Act(b, a));
    case ATick(_, order) => EachCap(b, "no-response", order); FewerPending(b, Act(b, a));
    case ABeginRequest(view, id, endpoint) => BeginCap(b, view, id, endpoint);
    case AEndHello =>
      var g := GateOf(b, b.source);
      SendEventsContext(b.(gates := b.gates[b.source := g.(eventsOpen := true, queued := [])]), b.source, g.queued);
      FewerPending(b, Act(b, a));
    case _ => FewerPending(b, Act(b, a));
  }

  // ---- runs --------------------------------------------------------------------------------------------------

  datatype World = World(b: Bridge, h: History)

  predicate Leads(w: World, a: Action, v: World) {
    Enabled(w.b, a) && v == World(Act(w.b, a), Note(w.h, w.b, a))
  }

  predicate Execution(worlds: seq<World>, actions: seq<Action>) {
    && |worlds| == |actions| + 1 && worlds[0] == World(Initial, NoHistory)
    && forall i | 0 <= i < |actions| :: Leads(worlds[i], actions[i], worlds[i + 1])
  }

  lemma {:induction false} ExecutionKeeps(worlds: seq<World>, actions: seq<Action>, n: nat)
    requires Execution(worlds, actions) && n <= |actions|
    ensures Inv(worlds[n].b, worlds[n].h) && CapOk(worlds[n].b) && PhaseOk(worlds[n].b)
  {
    if n == 0 {
      forall view ensures Owned(Initial, view) == {} {}
    } else {
      hide Inv, CapOk;
      ExecutionKeeps(worlds, actions, n - 1);
      assert Leads(worlds[n - 1], actions[n - 1], worlds[n]);
      ActKeeps(worlds[n - 1].b, worlds[n - 1].h, actions[n - 1]);
      CapKeeps(worlds[n - 1].b, actions[n - 1]);
    }
  }

  // The wire entries that answer an occurrence, and the tokens it waits under.
  function AnswersOf(h: History, o: nat): set<nat> {
    set at | at in h.answers && h.answers[at] == o
  }

  function TokensFor(b: Bridge, h: History, o: nat): set<nat> {
    set t | t in b.pending && t in h.tokenOf && h.tokenOf[t] == o
  }

  // Every dispatched request is answered at most once on the wire, by a settlement addressed to it, or waits
  // under one token, never both. Without either it is the request being handled, came from a nameless
  // view, or its document is gone.
  lemma SettledExactlyOnce(worlds: seq<World>, actions: seq<Action>, n: nat, o: nat)
    requires Execution(worlds, actions) && n <= |actions| && o < |worlds[n].h.occs|
    ensures var b, h := worlds[n].b, worlds[n].h; var occ := h.occs[o];
            var answers, tokens := AnswersOf(h, o), TokensFor(b, h, o);
            && |answers| + |tokens| <= 1
            && (forall at | at in answers :: at < |b.wire| && b.wire[at].view == occ.view && IsSettlement(b.wire[at].envelope, occ.requestId))
            && (forall t | t in tokens :: b.pending[t].view == occ.view && b.pending[t].requestId == occ.requestId)
            && (answers == {} && tokens == {} ==>
                  (o == |h.occs| - 1 && Unsettled(b)) || occ.view == "" || Life(h, occ.view) > occ.life)
            && (o == |h.occs| - 1 && Unsettled(b) ==> answers == {} && tokens == {})
  {
    ExecutionKeeps(worlds, actions, n);
    OneAccount(worlds[n].b, worlds[n].h, o);
  }

  lemma OneAccount(b: Bridge, h: History, o: nat)
    requires Inv(b, h) && o < |h.occs|
    ensures var answers, tokens := AnswersOf(h, o), TokensFor(b, h, o);
            match h.status[o]
            case Answered(at, _) => answers == {at} && tokens == {}
            case Deferred(t) => answers == {} && tokens == {t}
            case _ => answers == {} && tokens == {}
    ensures StatusOk(b, h, o)
  {
    assert StatusOk(b, h, o);
    match h.status[o]
    case Answered(at, _) => assert AnswersOf(h, o) == {at};
    case Deferred(t) => assert TokensFor(b, h, o) == {t};
    case _ =>
  }

  // Every reply or error on the wire answers a request its view made under that id.
  lemma NoUnsolicitedSettlement(worlds: seq<World>, actions: seq<Action>, n: nat, at: nat)
    requires Execution(worlds, actions) && n <= |actions| && at < |worlds[n].b.wire| && Settles(worlds[n].b.wire[at].envelope)
    ensures exists o | 0 <= o < |worlds[n].h.occs| ::
              at in AnswersOf(worlds[n].h, o) && worlds[n].h.occs[o].view == worlds[n].b.wire[at].view
              && IsSettlement(worlds[n].b.wire[at].envelope, worlds[n].h.occs[o].requestId)
  {
    ExecutionKeeps(worlds, actions, n);
    var h := worlds[n].h;
    assert StatusOk(worlds[n].b, h, h.answers[at]);
    assert at in AnswersOf(h, h.answers[at]);
  }

  // The answer goes to the document that asked, except when the request's own handler replaced it first.
  lemma AnswerReachesTheAskingDocument(worlds: seq<World>, actions: seq<Action>, n: nat, o: nat)
    requires Execution(worlds, actions) && n <= |actions| && o < |worlds[n].h.occs| == |worlds[n].h.status|
    requires worlds[n].h.status[o].Answered?
    ensures worlds[n].h.status[o].life == worlds[n].h.occs[o].life <==> !worlds[n].h.occs[o].orphaned
  {
    ExecutionKeeps(worlds, actions, n);
    assert StatusOk(worlds[n].b, worlds[n].h, o);
  }

  lemma AtMost64Pending(worlds: seq<World>, actions: seq<Action>, n: nat, view: string)
    requires Execution(worlds, actions) && n <= |actions|
    ensures |Owned(worlds[n].b, view)| <= MAX_PENDING
  {
    ExecutionKeeps(worlds, actions, n);
  }

  // ---- accounts are final ------------------------------------------------------------------------------------

  predicate Final(s: Status) {
    s.Answered? || s.Unaddressed? || s.Reaped?
  }

  // What is settled stays settled the same way, and a token stays with the request it was issued for.
  predicate Extends(h: History, k: History) {
    && |h.occs| <= |k.occs| && |h.status| <= |k.status|
    && (forall o | 0 <= o < |h.status| && Final(h.status[o]) :: k.status[o] == h.status[o])
    && (forall t | t in h.tokenOf :: t in k.tokenOf && k.tokenOf[t] == h.tokenOf[t])
    && (forall at | at in h.answers :: at in k.answers && k.answers[at] == h.answers[at])
  }

  lemma ExtendsTrans(h: History, k: History, l: History)
    requires Extends(h, k) && Extends(k, l)
    ensures Extends(h, l)
  {}

  lemma TokenExtends(b: Bridge, h: History, token: nat)
    requires Inv(b, h)
    ensures Extends(h, NoteToken(h, b, token))
  {}

  lemma {:induction false} EachExtends(b: Bridge, h: History, code: string, order: seq<nat>)
    requires Inv(b, h)
    ensures Extends(h, NoteEach(h, b, code, order))
    decreases |order|
  {
    hide Inv, Extends;
    if order == [] {
      SelfExtends(h);
    } else {
      var front := order[..|order| - 1];
      EachExtends(b, h, code, front);
      RejectEachKeeps(b, h, code, front);
      TokenExtends(RejectEach(b, code, front), NoteEach(h, b, code, front), order[|order| - 1]);
      ExtendsTrans(h, NoteEach(h, b, code, front), NoteEach(h, b, code, order));
    }
  }

  lemma SelfExtends(h: History)
    ensures Extends(h, h)
  {}

  lemma ActExtends(b: Bridge, h: History, a: Action)
    requires Inv(b, h) && PhaseOk(b) && Enabled(b, a)
    ensures Extends(h, Note(h, b, a))
  {
    match a
    case ARejectAll(code, order) => EachExtends(b, h, code, order);
    case ATick(_, order) => EachExtends(b, h, "no-response", order);
    case ARespondTo(token, _) => TokenExtends(b, h, token);
    case ARejectTo(token, _) => TokenExtends(b, h, token);
    case ABeginRequest(view, id, endpoint) => BeginExtends(b, h, view, id, endpoint);
    case _ => DirectExtends(b, h, a);
  }

  lemma BeginExtends(b: Bridge, h: History, view: string, id: string, endpoint: Endpoint)
    requires Inv(b, h)
    ensures Extends(h, NoteBegin(h, b, view, id, endpoint))
  {}

  lemma SettledExtends(b: Bridge, h: History)
    requires Inv(b, h)
    ensures Extends(h, NoteDirect(h, b))
  {
    hide StatusOk, Settles;
  }

  lemma DeferExtends(b: Bridge, h: History)
    requires Inv(b, h)
    ensures Extends(h, NoteDefer(h, b))
  {
    hide StatusOk, AnswersOk;
  }

  lemma RetiredExtends(b: Bridge, h: History, view: string)
    ensures Extends(h, NoteRetired(h, b, view))
  {}

  lemma DirectExtends(b: Bridge, h: History, a: Action)
    requires Inv(b, h) && !(a.ARejectAll? || a.ATick? || a.ARespondTo? || a.ARejectTo? || a.ABeginRequest?)
    ensures Extends(h, Note(h, b, a))
  {
    hide Inv, Extends, NoteDirect, NoteDefer, NoteRetired;
    SelfExtends(h);
    SettledExtends(b, h);
    DeferExtends(b, h);
    match a
    case ACreated(view) => RetiredExtends(b, h, view);
    case ADestroyed(view) => RetiredExtends(b, h, view);
    case _ =>
  }

  lemma {:induction false} AccountsAreFinal(worlds: seq<World>, actions: seq<Action>, m: nat, n: nat)
    requires Execution(worlds, actions) && m <= n <= |actions|
    ensures Extends(worlds[m].h, worlds[n].h)
    decreases n
  {
    hide Inv, Extends;
    if m == n {
      SelfExtends(worlds[m].h);
    } else {
      AccountsAreFinal(worlds, actions, m, n - 1);
      ExecutionKeeps(worlds, actions, n - 1);
      assert Leads(worlds[n - 1], actions[n - 1], worlds[n]);
      ActExtends(worlds[n - 1].b, worlds[n - 1].h, actions[n - 1]);
      ExtendsTrans(worlds[m].h, worlds[n - 1].h, worlds[n].h);
    }
  }

  // A token handed out is new: it was never issued before.
  lemma TokenIsNew(worlds: seq<World>, actions: seq<Action>, n: nat, deadline: int)
    requires Execution(worlds, actions) && n <= |actions| && Unsettled(worlds[n].b)
    ensures var token := Defer(worlds[n].b, deadline).0; token != 0 && token !in worlds[n].h.tokenOf
  {
    ExecutionKeeps(worlds, actions, n);
  }

  // The one way an answer crosses: a handler that replaces its own page answers the page it created.
  lemma HandlerThatReplacesItsPageAnswersTheNewOne(view: string, id: string, payload: string)
    requires view != "" && ValidId(id)
    ensures var actions := [ABeginRequest(view, id, RequestEndpoint), ACreated(view), ARespond(payload)];
            exists worlds: seq<World> :: Execution(worlds, actions) && worlds[3].b.wire == [Sent(view, Reply(id, payload))]
                             && worlds[3].h.occs == [Occurrence(view, id, 0, true)] && worlds[3].h.status == [Answered(0, 1)]
  {
    hide Act, Note, ValidId, Enabled;
    var actions := [ABeginRequest(view, id, RequestEndpoint), ACreated(view), ARespond(payload)];
    var w0, w1 := World(Initial, NoHistory), Asked(view, id);
    var w2, w3 := Retired(w1, view, id), Replied(Retired(w1, view, id), view, id, payload);
    AskedLeads(view, id);
    RetiredLeads(view, id);
    RepliedLeads(view, id, payload);
    assert Execution([w0, w1, w2, w3], actions);
  }

  // The worlds of that run: asked, the page replaced, answered.
  function Asked(view: string, id: string): World {
    World(Initial.(phase := InRequest, source := view, requestId := id), NoHistory.(occs := [Occurrence(view, id, 0, false)], status := [Open]))
  }

  function Retired(w: World, view: string, id: string): World {
    World(w.b.(gates := map[view := Closed]), w.h.(lives := map[view := 1], occs := [Occurrence(view, id, 0, true)]))
  }

  function Replied(w: World, view: string, id: string, payload: string): World {
    World(w.b.(settled := true, wire := [Sent(view, Reply(id, payload))]), w.h.(status := [Answered(0, 1)], answers := map[0 := 0]))
  }

  lemma AskedLeads(view: string, id: string)
    requires view != "" && ValidId(id)
    ensures Leads(World(Initial, NoHistory), ABeginRequest(view, id, RequestEndpoint), Asked(view, id))
  {
    hide ValidId;
    assert Owned(Initial, view) == {};
  }

  lemma RetiredLeads(view: string, id: string)
    requires view != "" && ValidId(id)
    ensures Leads(Asked(view, id), ACreated(view), Retired(Asked(view, id), view, id))
  {
    var w := Asked(view, id);
    assert Act(w.b, ACreated(view)) == Retired(w, view, id).b;
    assert Note(w.h, w.b, ACreated(view)).status == [Open];
  }

  lemma RepliedLeads(view: string, id: string, payload: string)
    requires view != "" && ValidId(id)
    ensures var w := Retired(Asked(view, id), view, id); Leads(w, ARespond(payload), Replied(w, view, id, payload))
  {}
}
