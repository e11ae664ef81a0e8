// What a settlement carries. Which action settles a request, and with what, is read off the actions and the
// request's account; the wire then holds exactly those envelopes.
module BridgeAnswers {
  import opened Wrappers
  import opened BridgeModel
  import opened BridgeSettlement
  import BridgeGates

  // ---- what an action answers ---------------------------------------------------------------------------------

  // The settlement an action carries to a request asked under `id`.
  function Carried(a: Action, id: string): Envelope {
    match a
    case ARespond(payload) => Reply(id, payload)
    case ARespondTo(_, payload) => Reply(id, payload)
    case AReject(code) => Error(id, code)
    case ARejectTo(_, code) => Error(id, code)
    case ARejectAll(code, _) => Error(id, code)
    case ATick(_, _) => Error(id, "no-response")
    case ABeginRequest(_, _, SendEndpoint) => Error(id, "wrong-endpoint-kind")
    case ABeginRequest(_, _, NoEndpoint) => Error(id, "unknown-endpoint")
    case ABeginRequest(_, _, RequestEndpoint) => Error(id, "request-capacity")
    case _ => Error(id, "internal")
  }

  // The view's requests that wait under a token.
  function Waiting(h: History, view: string): set<nat>
    requires |h.occs| == |h.status|
  {
    set o | 0 <= o < |h.status| && h.status[o].Deferred? && h.occs[o].view == view
  }

  // Whether the action settles occurrence `o`, given the deadline each token was deferred with.
  predicate Answers(h: History, a: Action, deadlines: map<nat, int>, o: nat)
    requires |h.occs| == |h.status|
  {
    match a
    case ABeginRequest(view, id, endpoint) =>
      o == |h.status| && 0 < |id| <= 64 && (endpoint == RequestEndpoint ==> |Waiting(h, view)| >= 64)
    case ARespond(_) => o < |h.status| && h.status[o] == Open
    case AReject(_) => o < |h.status| && h.status[o] == Open
    case AEndRequest => o < |h.status| && h.status[o] == Open
    case ARespondTo(token, _) => o < |h.status| && h.status[o] == Deferred(token)
    case ARejectTo(token, _) => o < |h.status| && h.status[o] == Deferred(token)
    case ARejectAll(_, _) => o < |h.status| && h.status[o].Deferred?
    case ATick(now, _) =>
      o < |h.status| && h.status[o].Deferred? && h.status[o].token in deadlines && deadlines[h.status[o].token] <= now
    case _ => false
  }

  // The deadline of every token issued so far, as its ADefer gave it.
  function Deadlines(worlds: seq<World>, actions: seq<Action>, n: nat): map<nat, int>
    requires |worlds| == |actions| + 1 && n <= |actions|
  {
    if n == 0 then map[]
    else
      var before := Deadlines(worlds, actions, n - 1);
      if actions[n - 1].ADefer? && Unsettled(worlds[n - 1].b) then before[worlds[n - 1].b.nextToken := actions[n - 1].deadline]
      else before
  }

  predicate Settled(s: Status) {
    s.Answered? || s.Unaddressed?
  }

  // Between `b` and `c` occurrence `o` was settled by `e`, which went to its view and the document then in it; a
  // view without a name gets nothing.
  predicate SettledBy(b: Bridge, h: History, c: Bridge, k: History, o: nat, e: Envelope) {
    && o < |k.occs| == |k.status|
    && var view := k.occs[o].view;
       if view == "" then k.status[o] == Unaddressed
       else
         && k.status[o].Answered? && k.status[o].life == Life(h, view)
         && |b.wire| <= k.status[o].at < |c.wire| && c.wire[k.status[o].at] == Sent(view, e)
  }

  // One action, seen from one occurrence.
  predicate Accounts(b: Bridge, h: History, a: Action, c: Bridge, k: History, deadlines: map<nat, int>, o: nat)
    requires |h.occs| == |h.status| <= |k.occs| == |k.status|
  {
    && (Answers(h, a, deadlines, o) ==> o < |k.occs| && SettledBy(b, h, c, k, o, Carried(a, k.occs[o].requestId)))
    && (!Answers(h, a, deadlines, o) && o < |k.occs| && Settled(k.status[o]) ==> o < |h.status| && k.status[o] == h.status[o])
  }

  // The action only adds to the wire, and every occurrence is accounted for.
  predicate StepAccounts(b: Bridge, h: History, a: Action, deadlines: map<nat, int>, o: nat)
    requires Enabled(b, a)
  {
    var c, k := Act(b, a), Note(h, b, a);
    |h.occs| == |h.status| <= |k.occs| == |k.status| && b.wire <= c.wire && Accounts(b, h, a, c, k, deadlines, o)
  }

  // ---- one action ----------------------------------------------------------------------------------------------

  lemma DirectAnswers(b: Bridge, h: History, e: Envelope, o: nat)
    requires Inv(b, h) && Unsettled(b) && o < |h.status|
    ensures var c, k := SendNamed(b.(settled := true), b.source, e), NoteDirect(h, b);
            && |k.occs| == |k.status| == |h.status| && b.wire <= c.wire
            && (h.status[o] == Open ==> h.occs[o].requestId == b.requestId && SettledBy(b, h, c, k, o, e))
            && (h.status[o] != Open ==> k.status[o] == h.status[o])
  {
    hide AnswersOk, TokensOk, IsSettlement, SameDocument;
    assert StatusOk(b, h, o) && StatusOk(b, h, |h.status| - 1);
  }

  lemma NothingOpen(b: Bridge, h: History, o: nat)
    requires Inv(b, h) && !Unsettled(b) && o < |h.status|
    ensures h.status[o] != Open
  {
    hide AnswersOk, TokensOk, IsSettlement, SameDocument;
    assert StatusOk(b, h, o);
  }

  // A token is pending exactly when some occurrence waits under it.
  lemma PendingExactlyWhenDeferred(b: Bridge, h: History, o: nat, token: nat)
    requires Inv(b, h) && o < |h.status|
    ensures h.status[o] == Deferred(token) <==> token in b.pending && token in h.tokenOf && h.tokenOf[token] == o
    ensures h.status[o] == Deferred(token) ==>
              b.pending[token].view == h.occs[o].view && b.pending[token].requestId == h.occs[o].requestId
  {
    hide AnswersOk, IsSettlement, SameDocument;
    assert StatusOk(b, h, o);
  }

  lemma TokenAnswers(b: Bridge, h: History, token: nat, e: Envelope, o: nat)
    requires Inv(b, h) && token in b.pending && o < |h.status|
    ensures var c, k := Settle(b, token, e), NoteToken(h, b, token);
            && |k.occs| == |k.status| == |h.status| && b.wire <= c.wire && k.occs == h.occs && k.lives == h.lives
            && (h.status[o] == Deferred(token) ==> h.occs[o].requestId == b.pending[token].requestId && SettledBy(b, h, c, k, o, e))
            && (h.status[o] != Deferred(token) ==> k.status[o] == h.status[o])
  {
    PendingExactlyWhenDeferred(b, h, o, token);
    hide AnswersOk, StatusOk;
  }

  lemma NoToken(b: Bridge, h: History, token: nat, o: nat)
    requires Inv(b, h) && token !in b.pending && o < |h.status|
    ensures h.status[o] != Deferred(token)
  {
    PendingExactlyWhenDeferred(b, h, o, token);
  }

  // Rejecting several tokens settles the requests under them, each with the code, and no other.
  lemma {:induction false} EachAnswers(b: Bridge, h: History, code: string, order: seq<nat>, o: nat)
    requires Inv(b, h) && o < |h.status|
    ensures var c, k := RejectEach(b, code, order), NoteEach(h, b, code, order);
            && |k.occs| == |k.status| == |h.status| && b.wire <= c.wire && k.occs == h.occs && k.lives == h.lives
            && (h.status[o].Deferred? && h.status[o].token in order ==> SettledBy(b, h, c, k, o, Error(h.occs[o].requestId, code)))
            && (!(h.status[o].Deferred? && h.status[o].token in order) ==> k.status[o] == h.status[o])
    decreases |order|
  {
    hide Inv, NoteToken, Settle;
    if order == [] {
      assert |h.occs| == |h.status| by { Lengths(b, h); }
    } else {
      var front, last := order[..|order| - 1], order[|order| - 1];
      var b1, h1 := RejectEach(b, code, front), NoteEach(h, b, code, front);
      EachAnswers(b, h, code, front, o);
      RejectEachKeeps(b, h, code, front);
      TakenApart(order);
      OneMore(b1, h1, last, code, o);
    }
  }

  lemma Lengths(b: Bridge, h: History)
    requires Inv(b, h)
    ensures |h.occs| == |h.status|
  {}

  lemma OneMore(b: Bridge, h: History, token: nat, code: string, o: nat)
    requires Inv(b, h) && o < |h.status|
    ensures var c, k := RejectTo(b, token, code), NoteToken(h, b, token);
            && |k.occs| == |k.status| == |h.status| && b.wire <= c.wire && k.occs == h.occs && k.lives == h.lives
            && (h.status[o] == Deferred(token) ==> SettledBy(b, h, c, k, o, Error(h.occs[o].requestId, code)))
            && (h.status[o] != Deferred(token) ==> k.status[o] == h.status[o])
  {
    Lengths(b, h);
    hide Inv, Settle;
    if token in b.pending {
      TokenAnswers(b, h, token, Error(b.pending[token].requestId, code), o);
    } else {
      NoToken(b, h, token, o);
    }
  }

  lemma SameSize(tokens: set<nat>, occs: set<nat>, of: map<nat, nat>)
    requires forall t | t in tokens :: t in of && of[t] in occs
    requires forall t, u | t in tokens && u in tokens && t != u :: of[t] != of[u]
    requires forall o | o in occs :: exists t :: t in tokens && t in of && of[t] == o
    ensures |tokens| == |occs|
  {
    if tokens != {} {
      var t :| t in tokens;
      SameSize(tokens - {t}, occs - {of[t]}, of);
    }
  }

  // A view's pending tokens are as many as its waiting requests.
  lemma WaitingIsOwned(b: Bridge, h: History, view: string)
    requires Inv(b, h)
    ensures |Waiting(h, view)| == |Owned(b, view)|
  {
    hide AnswersOk, IsSettlement, SameDocument, StatusOk;
    var tokens, occs := Owned(b, view), Waiting(h, view);
    forall t | t in tokens ensures t in h.tokenOf && h.tokenOf[t] in occs && h.status[h.tokenOf[t]] == Deferred(t) {
      PendingExactlyWhenDeferred(b, h, h.tokenOf[t], t);
    }
    forall o | o in occs ensures exists t :: t in tokens && t in h.tokenOf && h.tokenOf[t] == o {
      PendingExactlyWhenDeferred(b, h, o, h.status[o].token);
      assert h.status[o].token in tokens;
    }
    SameSize(tokens, occs, h.tokenOf);
  }

  // The deadline a token waits for is the one it was deferred with.
  predicate DeadlinesOk(b: Bridge, deadlines: map<nat, int>) {
    forall t | t in b.pending :: t in deadlines && deadlines[t] == b.pending[t].deadline
  }

  // A refused request is new and answered at once, in the document that asked.
  lemma RefusedAnswers(b: Bridge, u: Bridge, h: History, view: string, id: string, code: string, o: nat)
    requires |h.occs| == |h.status| && o <= |h.status| && ValidId(id) && u.wire == b.wire
    requires u.source == view && u.requestId == id && !u.settled
    ensures var noted := NoteRequest(h, view, id); var c, k := Reject(u, code), NoteDirect(noted, u);
            && |k.occs| == |k.status| == |h.status| + 1 && b.wire <= c.wire
            && k.occs[|h.status|].requestId == id && SettledBy(b, h, c, k, |h.status|, Error(id, code))
            && (o < |h.status| ==> k.status[o] == h.status[o])
  {}

  // What beginning a request amounts to, by endpoint and by the requests already waiting.
  lemma BeginIs(b: Bridge, h: History, a: Action, deadlines: map<nat, int>, o: nat)
    requires Inv(b, h) && Enabled(b, a) && a.ABeginRequest? && o <= |h.status| == |h.occs|
    ensures var u, noted := Opened(b, a.view, InRequest).(requestId := a.id), NoteRequest(h, a.view, a.id);
            var open := a.endpoint == RequestEndpoint && |Waiting(h, a.view)| < MAX_PENDING;
            && (Answers(h, a, deadlines, o) <==> o == |h.status| && ValidId(a.id) && !open)
            && Act(b, a).wire == (if ValidId(a.id) && !open then Reject(u, Carried(a, a.id).code).wire else b.wire)
            && Note(h, b, a) == (if !ValidId(a.id) then h else if open then noted else NoteDirect(noted, u))
  {
    WaitingIsOwned(b, h, a.view);
    hide Inv, Waiting, Owned, Reject, NoteDirect, NoteRequest;
    var u := Opened(b, a.view, InRequest).(requestId := a.id);
    OwnedAfterOpening(b, u, a.view);
  }

  lemma RefusalAccounts(b: Bridge, h: History, a: Action, deadlines: map<nat, int>, o: nat)
    requires Inv(b, h) && Enabled(b, a) && a.ABeginRequest? && o <= |h.status|
    ensures StepAccounts(b, h, a, deadlines, o)
  {
    Lengths(b, h);
    BeginIs(b, h, a, deadlines, o);
    hide Inv, Waiting, Reject, NoteDirect, NoteRequest, Act, Note, Answers, ValidId;
    if ValidId(a.id) {
      NotedLengths(h, a.view, a.id, o);
      RefusedAnswers(b, Opened(b, a.view, InRequest).(requestId := a.id), h, a.view, a.id, Carried(a, a.id).code, o);
    }
  }

  lemma OwnedAfterOpening(b: Bridge, u: Bridge, view: string)
    requires u.pending == b.pending
    ensures Owned(u, view) == Owned(b, view)
  {}

  lemma NotedLengths(h: History, view: string, id: string, o: nat)
    requires |h.occs| == |h.status| && o <= |h.status|
    ensures var k := NoteRequest(h, view, id); |k.occs| == |k.status| == |h.status| + 1 && k.status[|h.status|] == Open
    ensures o < |h.status| ==> NoteRequest(h, view, id).status[o] == h.status[o]
  {}

  lemma DirectIs(b: Bridge, h: History, a: Action, deadlines: map<nat, int>, o: nat)
    requires Enabled(b, a) && (a.ARespond? || a.AReject? || a.AEndRequest?) && |h.occs| == |h.status|
    ensures Answers(h, a, deadlines, o) <==> o < |h.status| && h.status[o] == Open
    ensures Note(h, b, a) == NoteDirect(h, b)
    ensures Act(b, a).wire == if Unsettled(b) then SendNamed(b.(settled := true), b.source, Carried(a, b.requestId)).wire else b.wire
  {}

  lemma DirectAccounts(b: Bridge, h: History, a: Action, deadlines: map<nat, int>, o: nat)
    requires Inv(b, h) && Enabled(b, a) && (a.ARespond? || a.AReject? || a.AEndRequest?) && o <= |h.status|
    ensures StepAccounts(b, h, a, deadlines, o)
  {
    Lengths(b, h);
    DirectIs(b, h, a, deadlines, o);
    NoteDirectLengths(b, h);
    hide Inv, NoteDirect, Act, Note, Answers;
    if o < |h.status| {
      if Unsettled(b) {
        DirectAnswers(b, h, Carried(a, b.requestId), o);
      } else {
        NothingOpen(b, h, o);
      }
    }
  }

  lemma NoteDirectLengths(b: Bridge, h: History)
    ensures |NoteDirect(h, b).status| == |h.status| && NoteDirect(h, b).occs == h.occs
    ensures !Unsettled(b) ==> NoteDirect(h, b) == h
  {}

  lemma NoteTokenLengths(b: Bridge, h: History, token: nat)
    ensures |NoteToken(h, b, token).status| == |h.status| && NoteToken(h, b, token).occs == h.occs
    ensures token !in b.pending ==> NoteToken(h, b, token) == h
  {}

  lemma TokenAccounts(b: Bridge, h: History, a: Action, deadlines: map<nat, int>, o: nat)
    requires Inv(b, h) && (a.ARespondTo? || a.ARejectTo?) && o <= |h.status|
    ensures StepAccounts(b, h, a, deadlines, o)
  {
    Lengths(b, h);
    hide Inv, NoteToken, Settle;
    NoteTokenLengths(b, h, a.token);
    if a.token in b.pending {
      SettleGrows(b, a.token, Carried(a, b.pending[a.token].requestId));
      if o < |h.status| { TokenAnswers(b, h, a.token, Carried(a, b.pending[a.token].requestId), o); }
    } else if o < |h.status| {
      NoToken(b, h, a.token, o);
    }
  }

  lemma SettleGrows(b: Bridge, token: nat, e: Envelope)
    requires token in b.pending
    ensures b.wire <= Settle(b, token, e).wire
  {}

  lemma EachAccounts(b: Bridge, h: History, a: Action, deadlines: map<nat, int>, o: nat)
    requires Inv(b, h) && Enabled(b, a) && (a.ARejectAll? || a.ATick?) && o <= |h.status| && DeadlinesOk(b, deadlines)
    ensures StepAccounts(b, h, a, deadlines, o)
  {
    Lengths(b, h);
    hide Inv, NoteEach, RejectEach;
    var code := if a.ARejectAll? then a.code else "no-response";
    EachGrows(b, h, code, a.order);
    if o < |h.status| {
      EachAnswers(b, h, code, a.order, o);
      if h.status[o].Deferred? { PendingExactlyWhenDeferred(b, h, o, h.status[o].token); }
    }
  }

  lemma {:induction false} EachGrows(b: Bridge, h: History, code: string, order: seq<nat>)
    ensures b.wire <= RejectEach(b, code, order).wire
    ensures |NoteEach(h, b, code, order).status| == |h.status| && NoteEach(h, b, code, order).occs == h.occs
    decreases |order|
  {
    if order != [] { EachGrows(b, h, code, order[..|order| - 1]); }
  }

  lemma DeferAccounts(b: Bridge, h: History, a: Action, deadlines: map<nat, int>, o: nat)
    requires Inv(b, h) && a.ADefer? && o <= |h.status|
    ensures StepAccounts(b, h, a, deadlines, o)
  {}

  lemma RetireAccounts(b: Bridge, h: History, a: Action, deadlines: map<nat, int>, o: nat)
    requires Inv(b, h) && (a.ACreated? || a.ADestroyed?) && o <= |h.status|
    ensures StepAccounts(b, h, a, deadlines, o)
  {
    Lengths(b, h);
    hide Inv;
  }

  predicate Quiet(a: Action) {
    a.AEmit? || a.APublish? || a.ABeginSend? || a.AEndSend? || a.ABeginHello? || a.AEndHello? || a.ATokensTaken?
  }

  // Gates, publications and contexts settle nothing.
  lemma QuietAccounts(b: Bridge, h: History, a: Action, deadlines: map<nat, int>, o: nat)
    requires Inv(b, h) && Enabled(b, a) && o <= |h.status| && Quiet(a)
    ensures StepAccounts(b, h, a, deadlines, o)
  {
    Lengths(b, h);
    QuietNotes(b, h, a, deadlines, o);
    QuietGrows(b, a);
    hide Inv, Act, Note, Answers;
  }

  lemma QuietNotes(b: Bridge, h: History, a: Action, deadlines: map<nat, int>, o: nat)
    requires Quiet(a) && |h.occs| == |h.status|
    ensures Note(h, b, a) == h && !Answers(h, a, deadlines, o)
  {}

  lemma QuietGrows(b: Bridge, a: Action)
    requires Quiet(a) && Enabled(b, a)
    ensures b.wire <= Act(b, a).wire
  {
    if a.AEndHello? {
      var g := GateOf(b, b.source);
      SendEventsGrow(b.(gates := b.gates[b.source := g.(eventsOpen := true, queued := [])]), b.source, g.queued);
    }
  }

  lemma {:induction false} SendEventsGrow(b: Bridge, view: string, texts: seq<string>)
    ensures b.wire <= SendEvents(b, view, texts).wire
    decreases |texts|
  {
    if texts != [] { SendEventsGrow(b, view, texts[..|texts| - 1]); }
  }

  lemma StepIsAccounted(b: Bridge, h: History, a: Action, deadlines: map<nat, int>, o: nat)
    requires Inv(b, h) && Enabled(b, a) && o <= |h.status| && DeadlinesOk(b, deadlines)
    ensures StepAccounts(b, h, a, deadlines, o)
  {
    hide Inv, StepAccounts, DeadlinesOk;
    match a
    case ARespond(_) => DirectAccounts(b, h, a, deadlines, o);
    case AReject(_) => DirectAccounts(b, h, a, deadlines, o);
    case AEndRequest => DirectAccounts(b, h, a, deadlines, o);
    case ARespondTo(_, _) => TokenAccounts(b, h, a, deadlines, o);
    case ARejectTo(_, _) => TokenAccounts(b, h, a, deadlines, o);
    case ARejectAll(_, _) => EachAccounts(b, h, a, deadlines, o);
    case ATick(_, _) => EachAccounts(b, h, a, deadlines, o);
    case ABeginRequest(_, _, _) => RefusalAccounts(b, h, a, deadlines, o);
    case ADefer(_) => DeferAccounts(b, h, a, deadlines, o);
    case ACreated(_) => RetireAccounts(b, h, a, deadlines, o);
    case ADestroyed(_) => RetireAccounts(b, h, a, deadlines, o);
    case _ => QuietAccounts(b, h, a, deadlines, o);
  }

  // ---- deadlines -------------------------------------------------------------------------------------------------

  lemma {:induction false} SendEventsPending(b: Bridge, view: string, texts: seq<string>)
    ensures SendEvents(b, view, texts).pending == b.pending
    decreases |texts|
  {
    if texts != [] { SendEventsPending(b, view, texts[..|texts| - 1]); }
  }

  // Only a deferral makes a token wait.
  lemma OnlyDeferAdds(b: Bridge, a: Action)
    requires Enabled(b, a)
    ensures forall t | t in Act(b, a).pending :: (t in b.pending && Act(b, a).pending[t] == b.pending[t]) ||
              (a.ADefer? && Unsettled(b) && t == b.nextToken && Act(b, a).pending[t].deadline == a.deadline)
  {
    match a
    case ARejectAll(code, order) => EachCap(b, code, order);
    case ATick(_, order) => EachCap(b, "no-response", order);
    case AEndHello =>
      var g := GateOf(b, b.source);
      SendEventsPending(b.(gates := b.gates[b.source := g.(eventsOpen := true, queued := [])]), b.source, g.queued);
    case _ =>
  }

  lemma DeadlinesKeep(b: Bridge, h: History, a: Action, deadlines: map<nat, int>)
    requires Inv(b, h) && Enabled(b, a) && DeadlinesOk(b, deadlines)
    ensures DeadlinesOk(Act(b, a), if a.ADefer? && Unsettled(b) then deadlines[b.nextToken := a.deadline] else deadlines)
  {
    hide Act, Inv, Enabled;
    OnlyDeferAdds(b, a);
    if a.ADefer? { TokenNotPending(b, h, a); }
  }

  lemma TokenNotPending(b: Bridge, h: History, a: Action)
    requires Inv(b, h) && a.ADefer?
    ensures b.nextToken !in b.pending
    ensures forall t | t in Act(b, a).pending && t == b.nextToken :: Act(b, a).pending[t].deadline == a.deadline
  {}

  lemma NoneWait()
    ensures DeadlinesOk(Initial, map[])
  {}

  lemma {:induction false} DeadlinesHold(worlds: seq<World>, actions: seq<Action>, n: nat)
    requires Execution(worlds, actions) && n <= |actions|
    ensures DeadlinesOk(worlds[n].b, Deadlines(worlds, actions, n))
  {
    hide Inv, CapOk, Act, Note, Unsettled, DeadlinesOk;
    if n == 0 {
      NoneWait();
    } else {
      DeadlinesHold(worlds, actions, n - 1);
      ExecutionKeeps(worlds, actions, n - 1);
      assert Leads(worlds[n - 1], actions[n - 1], worlds[n]);
      DeadlinesKeep(worlds[n - 1].b, worlds[n - 1].h, actions[n - 1], Deadlines(worlds, actions, n - 1));
    }
  }

  // ---- every run ---------------------------------------------------------------------------------------------------

  // Whether step k of a run settles occurrence `o`.
  predicate Settling(worlds: seq<World>, actions: seq<Action>, k: nat, o: nat)
    requires |worlds| == |actions| + 1 && k < |actions|
  {
    |worlds[k].h.occs| == |worlds[k].h.status| && Answers(worlds[k].h, actions[k], Deadlines(worlds, actions, k), o)
  }

  predicate SettledIn(h: History, o: nat) {
    o < |h.status| && Settled(h.status[o])
  }

  // Occurrences are only added, one by a request, and keep their view and id.
  predicate Keeps(h: History, k: History) {
    && |h.occs| <= |k.occs| <= |h.occs| + 1
    && forall o | 0 <= o < |h.occs| :: k.occs[o].view == h.occs[o].view && k.occs[o].requestId == h.occs[o].requestId
  }

  lemma OccsKept(b: Bridge, h: History, a: Action)
    requires |h.occs| == |h.status|
    ensures Keeps(h, Note(h, b, a))
  {
    hide NoteDirect, NoteToken;
    match a
    case ARespond(_) => NoteDirectLengths(b, h);
    case AReject(_) => NoteDirectLengths(b, h);
    case AEndRequest => NoteDirectLengths(b, h);
    case ARespondTo(token, _) => NoteTokenLengths(b, h, token);
    case ARejectTo(token, _) => NoteTokenLengths(b, h, token);
    case ARejectAll(code, order) => EachGrows(b, h, code, order);
    case ATick(_, order) => EachGrows(b, h, "no-response", order);
    case ABeginRequest(view, id, _) => NoteDirectLengths(Opened(b, view, InRequest).(requestId := id), NoteRequest(h, view, id));
    case _ =>
  }

  // A step settles an occurrence exactly when its action does, and what it puts on the wire for it is what the
  // action carries, for the view that asked and under the id it asked with.
  lemma SettledExactlyAsAsked(worlds: seq<World>, actions: seq<Action>, k: nat, o: nat)
    requires Execution(worlds, actions) && k < |actions|
    ensures Settling(worlds, actions, k, o) <==> SettledIn(worlds[k + 1].h, o) && !SettledIn(worlds[k].h, o)
    ensures Settling(worlds, actions, k, o) ==>
              var h := worlds[k + 1].h;
              o < |h.occs| && SettledBy(worlds[k].b, worlds[k].h, worlds[k + 1].b, h, o, Carried(actions[k], h.occs[o].requestId))
  {
    StepAccountsFor(worlds, actions, k, o);
    var h := worlds[k].h;
    AnswersUnsettled(h, actions[k], Deadlines(worlds, actions, k), o);
    hide Inv, Act, Note, Answers;
    if SettledIn(h, o) {
      AccountsAreFinal(worlds, actions, k, k + 1);
      assert Final(h.status[o]);
    }
  }

  lemma AnswersUnsettled(h: History, a: Action, deadlines: map<nat, int>, o: nat)
    requires |h.occs| == |h.status|
    ensures Answers(h, a, deadlines, o) ==> !SettledIn(h, o)
  {}

  lemma StepAccountsFor(worlds: seq<World>, actions: seq<Action>, k: nat, o: nat)
    requires Execution(worlds, actions) && k < |actions|
    ensures |worlds[k].h.occs| == |worlds[k].h.status| && |worlds[k + 1].h.occs| == |worlds[k + 1].h.status|
    ensures Keeps(worlds[k].h, worlds[k + 1].h) && worlds[k].b.wire <= worlds[k + 1].b.wire
    ensures Answers(worlds[k].h, actions[k], Deadlines(worlds, actions, k), o) ==> o <= |worlds[k].h.status|
    ensures Accounts(worlds[k].b, worlds[k].h, actions[k], worlds[k + 1].b, worlds[k + 1].h, Deadlines(worlds, actions, k), o)
  {
    var b, h := worlds[k].b, worlds[k].h;
    ExecutionKeeps(worlds, actions, k);
    ExecutionKeeps(worlds, actions, k + 1);
    DeadlinesHold(worlds, actions, k);
    assert Leads(worlds[k], actions[k], worlds[k + 1]);
    Lengths(b, h);
    Lengths(worlds[k + 1].b, worlds[k + 1].h);
    OccsKept(b, h, actions[k]);
    AnswersWithin(h, actions[k], Deadlines(worlds, actions, k), o);
    hide Inv, CapOk, Act, Note, Answers, DeadlinesOk;
    StepIsAccounted(b, h, actions[k], Deadlines(worlds, actions, k), if o <= |h.status| then o else 0);
  }

  lemma AnswersWithin(h: History, a: Action, deadlines: map<nat, int>, o: nat)
    requires |h.occs| == |h.status|
    ensures Answers(h, a, deadlines, o) ==> o <= |h.status|
  {}

  lemma {:induction false} WireGrows(worlds: seq<World>, actions: seq<Action>, m: nat, n: nat)
    requires Execution(worlds, actions) && m <= n <= |actions|
    ensures worlds[m].b.wire <= worlds[n].b.wire
    ensures |worlds[m].h.occs| <= |worlds[n].h.occs|
    ensures forall o | 0 <= o < |worlds[m].h.occs| ::
              worlds[n].h.occs[o].view == worlds[m].h.occs[o].view && worlds[n].h.occs[o].requestId == worlds[m].h.occs[o].requestId
    decreases n
  {
    hide Inv, Execution, Accounts;
    if m < n {
      WireGrows(worlds, actions, m, n - 1);
      StepAccountsFor(worlds, actions, n - 1, 0);
    }
  }

  // The request `o` has been answered on the wire by `e`.
  predicate AnsweredBy(w: World, o: nat, e: Envelope) {
    && o < |w.h.occs| == |w.h.status| && w.h.status[o].Answered?
    && w.h.status[o].at < |w.b.wire| && w.b.wire[w.h.status[o].at] == Sent(w.h.occs[o].view, e)
  }

  // After any run, a request of a named view has been answered by an envelope if and only if some step settled it
  // and that step's action carries the envelope: the payload of ARespond or ARespondTo in a reply, the code of a
  // rejection, of a timeout or of a refusal in an error.
  lemma AnsweredExactlyAsCarried(worlds: seq<World>, actions: seq<Action>, n: nat, o: nat, e: Envelope)
    requires Execution(worlds, actions) && n <= |actions| && o < |worlds[n].h.occs| && worlds[n].h.occs[o].view != ""
    ensures AnsweredBy(worlds[n], o, e) <==>
              exists k | 0 <= k < n :: Settling(worlds, actions, k, o) && Carried(actions[k], worlds[n].h.occs[o].requestId) == e
  {
    hide Settling;
    if k :| 0 <= k < n && Settling(worlds, actions, k, o) && Carried(actions[k], worlds[n].h.occs[o].requestId) == e {
      CarriedStays(worlds, actions, k, n, o);
    }
    if AnsweredBy(worlds[n], o, e) {
      SomeStepSettled(worlds, actions, n, o);
      var k :| 0 <= k < n && Settling(worlds, actions, k, o);
      CarriedStays(worlds, actions, k, n, o);
    }
  }

  lemma CarriedStays(worlds: seq<World>, actions: seq<Action>, k: nat, n: nat, o: nat)
    requires Execution(worlds, actions) && k < n <= |actions| && o < |worlds[n].h.occs| && worlds[n].h.occs[o].view != ""
    requires Settling(worlds, actions, k, o)
    ensures AnsweredBy(worlds[n], o, Carried(actions[k], worlds[n].h.occs[o].requestId))
  {
    SettledExactlyAsAsked(worlds, actions, k, o);
    AccountsAreFinal(worlds, actions, k + 1, n);
    StepAccountsFor(worlds, actions, n - 1, o);
    WireGrows(worlds, actions, k + 1, n);
    hide Execution, Settling, Accounts;
    assert Final(worlds[k + 1].h.status[o]);
  }

  lemma {:induction false} SomeStepSettled(worlds: seq<World>, actions: seq<Action>, n: nat, o: nat)
    requires Execution(worlds, actions) && n <= |actions| && SettledIn(worlds[n].h, o)
    ensures exists k | 0 <= k < n :: Settling(worlds, actions, k, o)
  {
    hide Settling;
    if n > 0 {
      SettledExactlyAsAsked(worlds, actions, n - 1, o);
      if SettledIn(worlds[n - 1].h, o) { SomeStepSettled(worlds, actions, n - 1, o); }
    }
  }

  // ---- hellos and publications ----------------------------------------------------------------------------------------

  // Whether the view's current document has said hello.
  predicate HelloSaid(actions: seq<Action>, n: nat, view: string)
    requires n <= |actions|
  {
    n > 0 &&
    match actions[n - 1]
    case ABeginHello(v) => v == view || HelloSaid(actions, n - 1, view)
    case ACreated(v) => v != view && HelloSaid(actions, n - 1, view)
    case ADestroyed(v) => v != view && HelloSaid(actions, n - 1, view)
    case _ => HelloSaid(actions, n - 1, view)
  }

  lemma GreetingMoves(b: Bridge, a: Action, view: string)
    requires Enabled(b, a)
    ensures GateOf(Act(b, a), view).greeted <==>
              (a.ABeginHello? && a.view == view) || (GateOf(b, view).greeted && !BridgeGates.Retires(a, view))
  {
    match a
    case ARejectAll(code, order) => BridgeGates.EachGates(b, code, order);
    case ATick(_, order) => BridgeGates.EachGates(b, "no-response", order);
    case AEndHello =>
      var g := GateOf(b, b.source);
      var u := b.(gates := b.gates[b.source := g.(eventsOpen := true, queued := [])]);
      SendEventsContext(u, b.source, g.queued);
      assert GateOf(Act(b, a), view).greeted == GateOf(u, view).greeted;
    case _ =>
  }

  lemma {:induction false} GreetedExactlyWhenHelloSaid(worlds: seq<World>, actions: seq<Action>, n: nat, view: string)
    requires Execution(worlds, actions) && n <= |actions|
    ensures GateOf(worlds[n].b, view).greeted <==> HelloSaid(actions, n, view)
  {
    if n > 0 {
      hide Act, Note;
      GreetedExactlyWhenHelloSaid(worlds, actions, n - 1, view);
      assert Leads(worlds[n - 1], actions[n - 1], worlds[n]);
      GreetingMoves(worlds[n - 1].b, actions[n - 1], view);
    }
  }

  // A hello of a named view is answered by ready, and a publication reaches it if and only if its current document has
  // said hello; nothing else puts either on the wire.
  lemma PublishedExactlyToTheGreeted(worlds: seq<World>, actions: seq<Action>, k: nat, x: Sent)
    requires Execution(worlds, actions) && k < |actions| && (x.envelope.Ready? || x.envelope.StateValue?)
    ensures worlds[k].b.wire <= worlds[k + 1].b.wire
    ensures x in worlds[k + 1].b.wire[|worlds[k].b.wire|..] <==>
              match x.envelope
              case StateValue(mod, key, value) =>
                actions[k] == APublish(x.view, mod, key, value) && x.view != "" && HelloSaid(actions, k, x.view)
              case _ => actions[k] == ABeginHello(x.view) && x.view != ""
  {
    StepAccountsFor(worlds, actions, k, 0);
    GreetedExactlyWhenHelloSaid(worlds, actions, k, x.view);
    assert Leads(worlds[k], actions[k], worlds[k + 1]);
    AddsExactly(worlds[k].b, actions[k], x);
  }

  lemma AddsExactly(b: Bridge, a: Action, x: Sent)
    requires Enabled(b, a) && b.wire <= Act(b, a).wire && (x.envelope.Ready? || x.envelope.StateValue?)
    ensures x in Act(b, a).wire[|b.wire|..] <==>
              match x.envelope
              case StateValue(mod, key, value) => a == APublish(x.view, mod, key, value) && x.view != "" && GateOf(b, x.view).greeted
              case _ => a == ABeginHello(x.view) && x.view != ""
  {
    if a.ARespond? || a.AReject? || a.AEndRequest? || a.ABeginRequest? || a.ARespondTo? || a.ARejectTo? {
      SettlesOnly(b, a, x);
    } else {
      match a
      case ARejectAll(code, order) => EachSettles(b, code, order, x);
      case ATick(_, order) => EachSettles(b, "no-response", order, x);
      case AEndHello =>
        var g := GateOf(b, b.source);
        SendsEvents(b.(gates := b.gates[b.source := g.(eventsOpen := true, queued := [])]), b.source, g.queued, x);
      case _ =>
    }
  }

  lemma SettlesOnly(b: Bridge, a: Action, x: Sent)
    requires a.ARespond? || a.AReject? || a.AEndRequest? || a.ABeginRequest? || a.ARespondTo? || a.ARejectTo?
    requires Enabled(b, a) && b.wire <= Act(b, a).wire && (x.envelope.Ready? || x.envelope.StateValue?)
    ensures x !in Act(b, a).wire[|b.wire|..]
  {
    hide ValidId, Owned;
    var c := Act(b, a);
    assert |c.wire| <= |b.wire| + 1;
    assert |c.wire| == |b.wire| + 1 ==> Settles(c.wire[|b.wire|].envelope);
  }

  lemma {:induction false} EachSettles(b: Bridge, code: string, order: seq<nat>, x: Sent)
    requires x.envelope.Ready? || x.envelope.StateValue?
    ensures b.wire <= RejectEach(b, code, order).wire && x !in RejectEach(b, code, order).wire[|b.wire|..]
    decreases |order|
  {
    if order != [] { EachSettles(b, code, order[..|order| - 1], x); }
  }

  lemma {:induction false} SendsEvents(b: Bridge, view: string, texts: seq<string>, x: Sent)
    requires x.envelope.Ready? || x.envelope.StateValue?
    ensures b.wire <= SendEvents(b, view, texts).wire && x !in SendEvents(b, view, texts).wire[|b.wire|..]
    decreases |texts|
  {
    if texts != [] { SendsEvents(b, view, texts[..|texts| - 1], x); }
  }
}
