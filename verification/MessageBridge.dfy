// The bridge as the source writes it: maps updated in place, loops that erase while they iterate.
module MessageBridges {
  import opened Wrappers
  import opened BridgeModel

  function Remaining(pending: map<nat, Pending>, order: seq<nat>): map<nat, Pending> {
    map t | t in pending && t !in order :: pending[t]
  }

  lemma NoneRemoved(pending: map<nat, Pending>)
    ensures Remaining(pending, []) == pending
  {}

  // A retiring view's requests go, one by one.
  function Kept(pending: map<nat, Pending>, todo: set<nat>, view: string): map<nat, Pending> {
    map t | t in pending && (t in todo || pending[t].view != view) :: pending[t]
  }

  lemma KeptStep(pending: map<nat, Pending>, todo: set<nat>, view: string, t: nat)
    requires t in todo && t in pending
    ensures var kept := Kept(pending, todo, view);
            && t in kept && kept[t] == pending[t]
            && Kept(pending, todo - {t}, view) == if pending[t].view == view then kept - {t} else kept
  {}

  lemma KeptEnds(pending: map<nat, Pending>, view: string)
    ensures Kept(pending, pending.Keys, view) == pending
    ensures Kept(pending, {}, view) == map t | t in pending && pending[t].view != view :: pending[t]
  {}

  lemma RemainingStep(pending: map<nat, Pending>, order: seq<nat>, i: nat)
    requires i < |order| && order[i] in pending && forall j, k | 0 <= j < k < |order| :: order[j] != order[k]
    ensures order[..i + 1][..i] == order[..i] && order[..i + 1][i] == order[i]
    ensures order[i] in Remaining(pending, order[..i]) && Remaining(pending, order[..i])[order[i]] == pending[order[i]]
    ensures Remaining(pending, order[..i + 1]) == Remaining(pending, order[..i]) - {order[i]}
  {
    assert order[..i + 1] == order[..i] + [order[i]];
  }

  class MessageBridge {
    var gates: map<string, Gate>
    var pending: map<nat, Pending>
    var nextToken: nat
    var phase: Phase
    var source: string
    var requestId: string
    var settled: bool
    var wire: seq<Sent>

    function Abs(): Bridge
      reads this
    {
      Bridge(gates, pending, nextToken, phase, source, requestId, settled, wire)
    }

    constructor ()
      ensures Abs() == Initial
    {
      gates, pending, nextToken, wire := map[], map[], 1, [];
      phase, source, requestId, settled := Outside, "", "", false;
    }

    method Send(view: string, e: Envelope)
      modifies this`wire
      ensures wire == old(wire) + [Sent(view, e)]
    {
      wire := wire + [Sent(view, e)];
    }

    method Respond(payload: string)
      modifies this
      ensures Abs() == BridgeModel.Respond(old(Abs()), payload)
    {
      if requestId == "" || settled { return; }
      settled := true;
      if source != "" { Send(source, Reply(requestId, payload)); }
    }

    method Reject(code: string)
      modifies this
      ensures Abs() == BridgeModel.Reject(old(Abs()), code)
    {
      if requestId == "" || settled { return; }
      settled := true;
      if source != "" { Send(source, Error(requestId, code)); }
    }

    method Defer(deadline: int) returns (token: nat)
      modifies this
      ensures (token, Abs()) == BridgeModel.Defer(old(Abs()), deadline)
    {
      if requestId == "" || settled { return 0; }
      settled := true;
      token := nextToken;
      nextToken := nextToken + 1;
      pending := pending[token := Pending(source, requestId, deadline)];
    }

    method TakePending(token: nat) returns (taken: Option<Pending>)
      modifies this`pending
      ensures taken == if token in old(pending) then Some(old(pending)[token]) else None
      ensures pending == old(pending) - {token}
    {
      if token !in pending { return None; }
      taken := Some(pending[token]);
      pending := pending - {token};
    }

    method RespondTo(token: nat, payload: string)
      modifies this
      ensures Abs() == BridgeModel.RespondTo(old(Abs()), token, payload)
    {
      var taken := TakePending(token);
      if taken.Some? && taken.value.view != "" { Send(taken.value.view, Reply(taken.value.requestId, payload)); }
    }

    method RejectTo(token: nat, code: string)
      modifies this
      ensures Abs() == BridgeModel.RejectTo(old(Abs()), token, code)
    {
      var taken := TakePending(token);
      if taken.Some? && taken.value.view != "" { Send(taken.value.view, Error(taken.value.requestId, code)); }
    }

    // Exchanges the map for an empty one, then answers each request, in the order the map yields them.
    method RejectAll(code: string) returns (order: seq<nat>)
      modifies this
      ensures Lists(order, old(pending).Keys)
      ensures Abs() == BridgeModel.RejectAll(old(Abs()), code, order)
    {
      var todo := pending;
      pending, order := map[], [];
      while todo != map[]
        invariant Abs() == old(Abs()).(pending := map[], wire := wire)
        invariant Lists(order, old(pending).Keys - todo.Keys) && todo.Keys <= old(pending).Keys
        invariant RejectEach(old(Abs()), code, order) == old(Abs()).(pending := todo, wire := wire)
        decreases |todo|
      {
        assert todo.Keys != {};
        var token :| token in todo;
        if todo[token].view != "" { Send(todo[token].view, Error(todo[token].requestId, code)); }
        ghost var before := order;
        todo, order := todo - {token}, order + [token];
        assert order[..|order| - 1] == before;
      }
    }

    // Erases the overdue requests and lists them, in the order the map yields them.
    method CollectExpired(now: int) returns (expired: seq<Pending>, order: seq<nat>)
      modifies this`pending
      ensures Lists(order, Expired(old(Abs()), now)) && |expired| == |order|
      ensures pending == Remaining(old(pending), order)
      ensures forall i | 0 <= i < |order| :: order[i] in old(pending) && expired[i] == old(pending)[order[i]]
    {
      var todo := pending.Keys;
      expired, order := [], [];
      while todo != {}
        invariant todo <= old(pending).Keys && |expired| == |order|
        invariant Lists(order, Expired(old(Abs()), now) - todo)
        invariant pending == Remaining(old(pending), order)
        invariant forall i | 0 <= i < |order| :: order[i] in old(pending) && expired[i] == old(pending)[order[i]]
        decreases |todo|
      {
        var token :| token in todo;
        todo := todo - {token};
        if now >= pending[token].deadline {
          expired, order := expired + [pending[token]], order + [token];
          pending := pending - {token};
        }
      }
    }

    method Tick(now: int) returns (order: seq<nat>)
      modifies this
      ensures Lists(order, Expired(old(Abs()), now))
      ensures Abs() == BridgeModel.Tick(old(Abs()), now, order)
    {
      hide Remaining;
      var expired: seq<Pending>;
      expired, order := CollectExpired(now);
      assert order[..0] == [];
      NoneRemoved(old(pending));
      var i := 0;
      while i < |expired|
        invariant i <= |order| && Abs() == old(Abs()).(pending := Remaining(old(pending), order), wire := wire)
        invariant RejectEach(old(Abs()), "no-response", order[..i]) ==
                  old(Abs()).(pending := Remaining(old(pending), order[..i]), wire := wire)
      {
        if expired[i].view != "" { Send(expired[i].view, Error(expired[i].requestId, "no-response")); }
        RemainingStep(old(pending), order, i);
        i := i + 1;
      }
      assert order[..i] == order;
    }

    method Emit(view: string, text: string)
      modifies this
      ensures Abs() == BridgeModel.Emit(old(Abs()), view, text)
    {
      if view == "" { return; }
      if view !in gates { gates := gates[view := Closed]; }
      var gate := gates[view];
      if !gate.eventsOpen {
        var queued := gate.queued;
        if |queued| >= MAX_QUEUED_EVENTS { queued := queued[1..]; }
        gates := gates[view := gate.(queued := queued + [text])];
        return;
      }
      Send(view, Event(text));
    }

    method PublishState(view: string, mod: string, key: string, value: string)
      modifies this
      ensures Abs() == Publish(old(Abs()), view, mod, key, value)
    {
      if view == "" { return; }
      if view !in gates || !gates[view].greeted { return; }
      Send(view, StateValue(mod, key, value));
    }

    // The loop that reaps a retired view's requests.
    method ReapPending(view: string)
      modifies this`pending
      ensures pending == Kept(old(pending), {}, view)
    {
      hide Kept;
      var todo := pending.Keys;
      KeptEnds(pending, view);
      while todo != {}
        invariant todo <= old(pending).Keys && pending == Kept(old(pending), todo, view)
        decreases |todo|
      {
        var token :| token in todo;
        KeptStep(old(pending), todo, view, token);
        todo := todo - {token};
        if pending[token].view == view { pending := pending - {token}; }
      }
    }

    method OnViewDestroyed(view: string)
      modifies this
      ensures Abs() == Destroyed(old(Abs()), view)
    {
      gates := gates - {view};
      ReapPending(view);
      KeptEnds(old(pending), view);
    }

    method OnViewCreated(view: string)
      modifies this
      ensures Abs() == Created(old(Abs()), view)
    {
      OnViewDestroyed(view);
      gates := gates[view := Closed];
    }

    // HandleWebMessage up to the handler, for a request to an endpoint of the given kind.
    method BeginRequest(view: string, id: string, endpoint: Endpoint)
      modifies this
      ensures Abs() == BridgeModel.BeginRequest(old(Abs()), view, id, endpoint)
    {
      phase, source, requestId, settled := InRequest, view, "", false;
      if |id| == 0 || |id| > MAX_REQUEST_ID { return; }
      requestId := id;
      if endpoint == SendEndpoint {
        Reject("wrong-endpoint-kind");
      } else if endpoint == NoEndpoint {
        Reject("unknown-endpoint");
      } else {
        var owned := CountOwned(view);
        if owned >= MAX_PENDING { Reject("request-capacity"); }
      }
    }

    // count_if over the deferred requests.
    method CountOwned(view: string) returns (owned: nat)
      ensures owned == |Owned(Abs(), view)|
    {
      owned := 0;
      var todo, seen := pending.Keys, {};
      while todo != {}
        invariant seen <= Owned(Abs(), view) && seen !! todo && Owned(Abs(), view) <= seen + todo && owned == |seen|
        invariant todo <= pending.Keys
        decreases |todo|
      {
        var token :| token in todo;
        todo := todo - {token};
        if pending[token].view == view { seen, owned := seen + {token}, owned + 1; }
      }
      assert seen == Owned(Abs(), view);
    }

    // What follows the handler: an unanswered request is rejected, and the context is cleared.
    method EndRequest()
      modifies this
      ensures Abs() == BridgeModel.EndRequest(old(Abs()))
    {
      if requestId != "" && !settled { Reject("internal"); }
      phase, source, requestId, settled := Outside, "", "", false;
    }

    // HandleHello up to the replay hook.
    method BeginHello(view: string)
      modifies this
      ensures Abs() == BridgeModel.BeginHello(old(Abs()), view)
    {
      phase, source, requestId, settled := InHello, view, "", false;
      if view !in gates { gates := gates[view := Closed]; }
      gates := gates[view := gates[view].(greeted := true)];
      if view != "" { Send(view, Ready); }
    }

    // After the replay hook: open the gate and deliver the backlog.
    method EndHello()
      modifies this
      ensures Abs() == BridgeModel.EndHello(old(Abs()))
    {
      var view := source;
      if view !in gates { gates := gates[view := Closed]; }
      var queued := gates[view].queued;
      gates := gates[view := gates[view].(queued := [], eventsOpen := true)];
      ghost var unlocked := Abs();
      for i := 0 to |queued|
        invariant Abs() == unlocked.(wire := wire) && SendEvents(unlocked, view, queued[..i]) == Abs()
      {
        Send(view, Event(queued[i]));
        assert queued[..i + 1][..i] == queued[..i];
      }
      assert queued[..|queued|] == queued;
      phase, source, requestId, settled := Outside, "", "", false;
    }
  }
}
