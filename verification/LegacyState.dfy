// The adapter as the source writes it: maps changed while they are walked. `Pump` and `ReplayState` return
// what they hand to the bridge; the ghost page (`view`, `cache`) states what those messages do to a page.
module LegacyStates {
  import opened Wrappers
  import opened Text
  import opened LegacyStateModel

  class LegacyAdapter {
    var values: map<Address, StateValue>
    var resetKeys: set<Address>
    var suspended: bool
    var requests: map<string, Request>

    function Abs(): Adapter
      reads this
    {
      Adapter(values, resetKeys, suspended, requests)
    }

    constructor ()
      ensures Abs() == Initial
    {
      values, resetKeys, suspended, requests := map[], {}, false, map[];
    }

    method Set(mod: string, key: string, value: string, valid: bool)
      modifies this
      ensures Abs() == LegacyStateModel.Set(old(Abs()), mod, key, value, valid)
    {
      if !valid { return; }
      if suspended { return; }
      var address := (Lower(mod), Lower(key));
      if address !in values && |values| >= MAX_VALUES { return; }
      values := values[address := StateValue(value, true, {})];
    }

    method ResetSession()
      modifies this
      ensures Abs() == LegacyStateModel.ResetSession(old(Abs()))
    {
      resetKeys := resetKeys + values.Keys;
      values := map[];
      var todo := requests.Keys;
      while todo != {}
        invariant todo <= requests.Keys
        invariant Abs() == old(Abs()).(values := map[], resetKeys := old(resetKeys) + old(values).Keys, requests := requests)
        invariant requests == map k | k in old(requests) :: if k in todo then old(requests)[k] else Cancelled(old(requests)[k])
        decreases |todo|
      {
        var k :| k in todo;
        todo := todo - {k};
        requests := requests[k := requests[k].(answered := true, rejected := true, code := "game-load")];
      }
    }

    method SetSuspended(suspend: bool)
      modifies this
      ensures Abs() == old(Abs()).(suspended := suspend)
    {
      suspended := suspend;
    }

    // One view's part of the reset pass: collect its keys and withdraw its deliveries.
    method WithdrawFrom(target: string) returns (keys: set<string>)
      modifies this`values
      ensures keys == set a | a in resetKeys && Owns(target, a) :: a.1
      ensures values == map a | a in old(values) ::
                if a in resetKeys && Owns(target, a) then Withdrawn(old(values)[a], {target}) else old(values)[a]
    {
      hide Owns;
      var todo := resetKeys;
      keys := {};
      while todo != {}
        invariant todo <= resetKeys && keys == set a | a in resetKeys && a !in todo && Owns(target, a) :: a.1
        invariant values == WithdrawnSoFar(old(values), resetKeys - todo, target)
        decreases |todo|
      {
        var address :| address in todo;
        WithdrawnStep(old(values), resetKeys - todo, target, address);
        assert resetKeys - (todo - {address}) == resetKeys - todo + {address};
        todo := todo - {address};
        if Owns(target, address) {
          keys := keys + {address.1};
          if address in values {
            values := values[address := values[address].(delivered := values[address].delivered - {target}, dirty := true)];
          }
        }
      }
    }

    method EmitResets(views: seq<string>, greeted: set<string>, ghost view: string, ghost cache: Cache) returns (sent: seq<Message>)
      modifies this
      ensures Abs() == AfterResets(old(Abs()), views, greeted)
      ensures ReceiveAll(view, cache, sent) == if view in views && view in greeted then ResetCache(old(Abs()), view, cache) else cache
    {
      sent := [];
      var i := 0;
      ghost var start := Abs();
      while i < |views|
        invariant i <= |views| && Abs() == start.(values := values)
        invariant values == ResetSoFar(start, views[..i], greeted)
        invariant ReceiveAll(view, cache, sent) ==
                  if view in views[..i] && view in greeted then ResetCache(start, view, cache) else cache
      {
        ResetStep(start, views, i, greeted);
        if views[i] in greeted {
          var keys := WithdrawFrom(views[i]);
          ResetPage(start, view, cache, views[i], keys);
          if keys != {} {
            ghost var before := sent;
            sent := sent + [DataReset(views[i], keys)];
            assert sent[..|sent| - 1] == before;
          }
        }
        assert views[..i + 1] == views[..i] + [views[i]];
        i := i + 1;
      }
      assert views[..i] == views;
      resetKeys := {};
    }

    // One dirty value: to every pumped page of its mod that has greeted and not had it.
    method PublishOne(address: Address, views: seq<string>, greeted: set<string>, ghost view: string, ghost cache: Cache)
      returns (sent: seq<Message>)
      requires address in values
      modifies this`values
      ensures values == old(values)[address := Delivered(old(values)[address], Targets(address, views, greeted))]
      ensures ReceiveAll(view, cache, sent) ==
              if view in Targets(address, views, greeted) && view !in old(values)[address].delivered
              then cache[Lower(address.1) := old(values)[address].value] else cache
    {
      hide Targets, Owns, Lower;
      sent := [];
      var i := 0;
      ghost var e := values[address];
      NoTargets(address, views, greeted);
      assert e.delivered + {} == e.delivered;
      while i < |views|
        invariant i <= |views| && address in values && values == old(values)[address := values[address]]
        invariant values[address] == e.(delivered := e.delivered + Targets(address, views[..i], greeted))
        invariant ReceiveAll(view, cache, sent) ==
                  if view in Targets(address, views[..i], greeted) && view !in e.delivered then cache[Lower(address.1) := e.value] else cache
      {
        TargetsStep(address, views, i, greeted);
        if Owns(views[i], address) && views[i] in greeted && views[i] !in values[address].delivered {
          SendStep(view, cache, sent, views[i], address, e.value, Targets(address, views[..i], greeted), e.delivered);
          sent := sent + [DataState(views[i], address.1, values[address].value)];
          values := values[address := values[address].(delivered := values[address].delivered + {views[i]})];
        }
        assert values[address].delivered == e.delivered + Targets(address, views[..i + 1], greeted);
        i := i + 1;
      }
      assert views[..i] == views;
      values := values[address := values[address].(dirty := false)];
    }

    method PublishDirty(views: seq<string>, greeted: set<string>, ghost view: string, ghost cache: Cache) returns (sent: seq<Message>)
      requires Folded(Abs())
      modifies this`values
      ensures Abs() == AfterPublish(old(Abs()), views, greeted)
      ensures SentTo(cache, ReceiveAll(view, cache, sent), old(Abs()), view, Due(old(Abs()), view, views, greeted))
    {
      hide Targets, Owns, Lower, SentTo, Delivered, Folded;
      sent := [];
      ghost var start, due := Abs(), Due(Abs(), view, views, greeted);
      NothingSent(cache, start, view);
      assert ReceiveAll(view, cache, []) == cache;
      if suspended {
        assert due == {};
        return;
      }
      DueOwned(start, view, views, greeted);
      var todo := values.Keys;
      assert due - todo == {};
      MergedStart(start.values, AfterPublish(start, views, greeted).values);
      while todo != {}
        invariant todo <= start.values.Keys && Abs() == start.(values := values)
        invariant values == Merged(start.values, AfterPublish(start, views, greeted).values, todo)
        invariant SentTo(cache, ReceiveAll(view, cache, sent), start, view, due - todo)
        decreases |todo|
      {
        var address :| address in todo;
        ghost var before, was := sent, todo;
        MergedStep(start.values, AfterPublish(start, views, greeted).values, todo, address);
        DueStep(due, start.values.Keys, todo, address);
        todo := todo - {address};
        if values[address].dirty {
          var more := PublishOne(address, views, greeted, view, ReceiveAll(view, cache, sent));
          sent := sent + more;
          ReceiveMore(view, cache, before, more);
        }
        SentStep(cache, ReceiveAll(view, cache, before), ReceiveAll(view, cache, sent), start, view, due - was, address, address in due);
      }
      assert due - {} == due;
      MergedEnd(start.values, AfterPublish(start, views, greeted).values);
    }

    // ReplayState, when a page of the mod says hello.
    method ReplayState(target: string, ghost view: string, ghost cache: Cache) returns (sent: seq<Message>)
      requires Folded(Abs())
      modifies this`values
      ensures Abs() == AfterReplay(old(Abs()), target)
      ensures SentTo(cache, ReceiveAll(view, cache, sent), old(Abs()), view, if target == view then Replayed(old(Abs()), view) else {})
    {
      hide Owns, Lower, SentTo, Folded, Merged, ReceiveAll, AfterReplay, Mine;
      sent := [];
      ghost var start, due := Abs(), Mine(Abs(), target, view);
      ghost var after := AfterReplay(start, target);
      NothingMine(start, target, view);
      NothingSent(cache, start, view);
      NothingReceived(view, cache);
      if suspended {
        ReplaySuspended(start, target);
        return;
      }
      ReplayAt(start, target);
      var todo := values.Keys;
      assert due - todo == {};
      MergedStart(start.values, after.values);
      while todo != {}
        invariant todo <= start.values.Keys && Abs() == start.(values := values)
        invariant values == Merged(start.values, after.values, todo)
        invariant SentTo(cache, ReceiveAll(view, cache, sent), start, view, due - todo)
        decreases |todo|
      {
        var address :| address in todo;
        MergedStep(start.values, after.values, todo, address);
        MineStep(start, target, view, cache, sent, todo, address);
        todo := todo - {address};
        if Owns(target, address) {
          sent := sent + [DataState(target, address.1, values[address].value)];
          values := values[address := values[address].(delivered := values[address].delivered + {target})];
        } else {
          assert values == values[address := values[address]];
        }
      }
      assert due - {} == due;
      MergedEnd(start.values, after.values);
    }

    method Reply(token: string, value: string, code: string, rejected: bool, valid: bool, now: int) returns (ok: bool)
      modifies this`requests
      ensures ok == CanReply(old(Abs()), token, valid, now)
      ensures Abs() == LegacyStateModel.Reply(old(Abs()), token, value, code, rejected, valid, now)
    {
      if !valid { return false; }
      var k := Lower(token);
      if suspended || k !in requests || requests[k].answered || now >= requests[k].deadline { return false; }
      requests := requests[k := requests[k].(answered := true, rejected := rejected,
                    code := if code == "" && rejected then "papyrus-rejected" else code, value := value)];
      return true;
    }

    // The settling part of Pump: `pending` are the tokens the bridge still holds. Each request in `keys` is
    // settled once, by the outcome its record gives.
    method SettleRequests(now: int, pending: set<nat>) returns (sent: seq<Settlement>, ghost keys: seq<string>)
      modifies this`requests
      ensures Abs() == AfterSettling(old(Abs()), now, pending)
      ensures SettledEach(old(requests), old(requests).Keys, keys, sent, suspended, now, pending)
    {
      hide Outcome, SettledEach, StillHeld;
      sent, keys := [], [];
      var todo := requests.Keys;
      HeldEnds(old(requests), suspended, now, pending);
      NothingSettled(old(requests), suspended, now, pending);
      while todo != {}
        invariant todo <= requests.Keys && requests.Keys <= old(requests).Keys
        invariant requests == StillHeld(old(requests), todo, suspended, now, pending)
        invariant SettledEach(old(requests), old(requests).Keys - todo, keys, sent, suspended, now, pending)
        decreases |todo|
      {
        var k :| k in todo;
        HeldStep(old(requests), todo, k, suspended, now, pending);
        SettledStep(old(requests), todo, k, keys, sent, suspended, now, pending);
        todo := todo - {k};
        var outcome := Outcome(requests[k], suspended, now);
        var known := requests[k].bridgeToken in pending;
        if known && outcome.Some? { sent, keys := sent + [outcome.value], keys + [k]; }
        if !known || outcome.Some? { requests := requests - {k}; }
      }
      assert old(requests).Keys - {} == old(requests).Keys;
    }

    method Pump(views: seq<string>, greeted: set<string>, now: int, pending: set<nat>, ghost view: string, ghost cache: Cache)
      returns (sent: seq<Message>, settled: seq<Settlement>, ghost keys: seq<string>)
      requires Folded(Abs())
      modifies this
      ensures Abs() == LegacyStateModel.Pump(old(Abs()), views, greeted, now, pending)
      ensures Pumped(old(Abs()), views, greeted, view, cache, ReceiveAll(view, cache, sent))
      ensures SettledEach(old(requests), old(requests).Keys, keys, settled, suspended, now, pending)
    {
      hide SettledEach;
      sent := [];
      if resetKeys != {} {
        sent := EmitResets(views, greeted, view, cache);
      } else {
        NothingToReset(Abs(), views, greeted, view, cache);
      }
      var resets := sent;
      var more := PublishDirty(views, greeted, view, ReceiveAll(view, cache, resets));
      sent := sent + more;
      ReceiveMore(view, cache, resets, more);
      settled, keys := SettleRequests(now, pending);
    }

    // Requests of a closed view are rejected while the bridge still holds them, each once, and forgotten.
    method CloseView(closed: string, pending: set<nat>) returns (sent: seq<Settlement>, ghost keys: seq<string>)
      modifies this`requests
      ensures Abs() == LegacyStateModel.CloseView(old(Abs()), closed)
      ensures RejectedEach(old(requests), old(requests).Keys, keys, sent, closed, pending)
    {
      hide RejectedEach;
      sent, keys := [], [];
      var todo := requests.Keys;
      NothingRejected(requests, closed, pending);
      while todo != {}
        invariant todo <= requests.Keys
        invariant requests == map k | k in old(requests) && (k in todo || old(requests)[k].view != closed) :: old(requests)[k]
        invariant RejectedEach(old(requests), old(requests).Keys - todo, keys, sent, closed, pending)
        decreases |todo|
      {
        var k :| k in todo;
        RejectedStep(old(requests), todo, k, keys, sent, closed, pending);
        todo := todo - {k};
        if requests[k].view == closed {
          if requests[k].bridgeToken in pending { sent, keys := sent + [RejectTo(requests[k].bridgeToken, "view-closed")], keys + [k]; }
          requests := requests - {k};
        }
      }
      assert old(requests).Keys - {} == old(requests).Keys;
    }
  }

  // The page's cache: onMessage for data.reset and data.state.
  class LegacyPage {
    const view: string
    var dataState: Cache

    constructor (view: string)
      ensures this.view == view && dataState == map[]
    {
      this.view, dataState := view, map[];
    }

    method OnMessage(m: Message)
      modifies this
      ensures dataState == Receive(view, old(dataState), m)
    {
      match m {
        case DataReset(to, keys) =>
          if to != view { return; }
          var todo := keys;
          while todo != {}
            invariant todo <= keys && dataState == old(dataState) - set k | k in keys && k !in todo :: Lower(k)
            decreases |todo|
          {
            var key :| key in todo;
            todo := todo - {key};
            dataState := dataState - {Lower(key)};
          }
        case DataState(to, key, value) =>
          if to == view { dataState := dataState[Lower(key) := value]; }
      }
    }
  }

  function ResetSoFar(s: Adapter, views: seq<string>, greeted: set<string>): map<Address, StateValue> {
    map a | a in s.values :: if a in s.resetKeys then Withdrawn(s.values[a], Targets(a, views, greeted)) else s.values[a]
  }

  lemma ResetStep(s: Adapter, views: seq<string>, i: nat, greeted: set<string>)
    requires i < |views|
    ensures ResetSoFar(s, views[..i + 1], greeted) ==
            if views[i] !in greeted then ResetSoFar(s, views[..i], greeted) else
            map a | a in s.values ::
              if a in s.resetKeys && Owns(views[i], a) then Withdrawn(ResetSoFar(s, views[..i], greeted)[a], {views[i]})
              else ResetSoFar(s, views[..i], greeted)[a]
  {
    hide Owns;
    assert views[..i + 1] == views[..i] + [views[i]];
    forall a | a in s.values
      ensures Targets(a, views[..i + 1], greeted) ==
              if views[i] in greeted && Owns(views[i], a) then Targets(a, views[..i], greeted) + {views[i]} else Targets(a, views[..i], greeted)
    {}
    forall a | a in s.values && views[i] in greeted && Owns(views[i], a)
      ensures Withdrawn(s.values[a], Targets(a, views[..i], greeted) + {views[i]}) ==
              Withdrawn(Withdrawn(s.values[a], Targets(a, views[..i], greeted)), {views[i]})
    {
      var e, t := s.values[a], Targets(a, views[..i], greeted);
      assert e.delivered - (t + {views[i]}) == (e.delivered - t) - {views[i]};
    }
  }

  // A reset sent to a page removes the keys reset for its mod; sent to another page it does nothing here.
  lemma ResetPage(s: Adapter, view: string, cache: Cache, target: string, keys: set<string>)
    requires keys == set a | a in s.resetKeys && Owns(target, a) :: a.1
    ensures target == view ==> Receive(view, cache, DataReset(target, keys)) == ResetCache(s, view, cache)
    ensures target == view ==> Receive(view, ResetCache(s, view, cache), DataReset(target, keys)) == ResetCache(s, view, cache)
    ensures target == view && keys == {} ==> ResetCache(s, view, cache) == cache
  {
    hide Owns, Lower;
    if target == view {
      var lowered := set k | k in keys :: Lower(k);
      forall a | a in s.resetKeys && Owns(view, a) ensures Lower(a.1) in lowered { assert a.1 in keys; }
      forall k | k in keys ensures Lower(k) in OwnKeys(s.resetKeys, view) {
        var a :| a in s.resetKeys && Owns(view, a) && k == a.1;
        assert a in set b | b in s.resetKeys && Owns(view, b);
      }
      assert lowered == OwnKeys(s.resetKeys, view);
    }
  }

  // The values once these of the reset keys have been withdrawn from a view.
  function WithdrawnSoFar(values: map<Address, StateValue>, done: set<Address>, target: string): map<Address, StateValue> {
    map a | a in values :: if a in done && Owns(target, a) then Withdrawn(values[a], {target}) else values[a]
  }

  lemma WithdrawnStep(values: map<Address, StateValue>, done: set<Address>, target: string, a: Address)
    requires a !in done
    ensures var before, after := WithdrawnSoFar(values, done, target), WithdrawnSoFar(values, done + {a}, target);
            && (a in values ==> before[a] == values[a])
            && after == if a in values && Owns(target, a) then before[a := Withdrawn(values[a], {target})] else before
  {
    hide Owns, Withdrawn;
  }

  lemma NoTargets(a: Address, views: seq<string>, greeted: set<string>)
    ensures Targets(a, views[..0], greeted) == {}
  {}

  // One more page is sent the value.
  lemma SendStep(view: string, cache: Cache, sent: seq<Message>, target: string, a: Address, value: string, targets: set<string>, had: set<string>)
    requires target !in had && target !in targets
    requires ReceiveAll(view, cache, sent) == if view in targets && view !in had then cache[Lower(a.1) := value] else cache
    ensures ReceiveAll(view, cache, sent + [DataState(target, a.1, value)]) == if view in targets + {target} && view !in had then cache[Lower(a.1) := value] else cache
  {
    hide Lower;
    assert (sent + [DataState(target, a.1, value)])[..|sent|] == sent;
  }

  lemma TargetsStep(a: Address, views: seq<string>, i: nat, greeted: set<string>)
    requires i < |views|
    ensures Targets(a, views[..i + 1], greeted) ==
            if views[i] in greeted && Owns(views[i], a) then Targets(a, views[..i], greeted) + {views[i]} else Targets(a, views[..i], greeted)
  {
    hide Owns;
    assert views[..i + 1] == views[..i] + [views[i]];
  }

  lemma {:induction false} ReceiveMore(view: string, cache: Cache, sent: seq<Message>, more: seq<Message>)
    ensures ReceiveAll(view, cache, sent + more) == ReceiveAll(view, ReceiveAll(view, cache, sent), more)
    decreases |more|
  {
    if more == [] {
      assert sent + more == sent;
    } else {
      ReceiveMore(view, cache, sent, more[..|more| - 1]);
      assert (sent + more)[..|sent + more| - 1] == sent + more[..|more| - 1];
    }
  }

  // One more value reaches the page, under a key no other value of its mod has.
  lemma SentStep(cache: Cache, mid: Cache, after: Cache, s: Adapter, view: string, which: set<Address>, a: Address, due: bool)
    requires Folded(s) && a in s.values && a !in which
    requires (forall b | b in which :: b in s.values && Owns(view, b)) && (due ==> Owns(view, a))
    requires SentTo(cache, mid, s, view, which)
    requires after == if due then mid[Lower(a.1) := s.values[a].value] else mid
    ensures SentTo(cache, after, s, view, if due then which + {a} else which)
  {
    if due {
      OtherKeys(s, view, which, a);
      hide Lower, Owns;
      KeysAdd(which, a);
    }
  }

  lemma OtherKeys(s: Adapter, view: string, which: set<Address>, a: Address)
    requires Folded(s) && a in s.values && a !in which && Owns(view, a)
    requires forall b | b in which :: b in s.values && Owns(view, b)
    ensures forall b | b in which :: Lower(b.1) != Lower(a.1)
  {
    hide Lower;
    forall b | b in which ensures Lower(b.1) != Lower(a.1) {
      assert Owns(view, b) && a.0 == b.0;
      assert b != a;
    }
  }

  lemma KeysAdd(which: set<Address>, a: Address)
    ensures KeysOf(which + {a}) == KeysOf(which) + {Lower(a.1)}
  {
    hide Lower;
    assert a in which + {a};
    forall k | k in KeysOf(which) ensures k in KeysOf(which + {a}) {
      var b :| b in which && k == Lower(b.1);
      assert b in which + {a};
    }
  }

  lemma NothingSent(cache: Cache, s: Adapter, view: string)
    ensures SentTo(cache, cache, s, view, {})
  {}

  lemma DueOwned(s: Adapter, view: string, views: seq<string>, greeted: set<string>)
    ensures forall a | a in Due(s, view, views, greeted) :: a in s.values && Owns(view, a)
  {}

  predicate Distinct(keys: seq<string>) {
    forall i, j | 0 <= i < j < |keys| :: keys[i] != keys[j]
  }

  // `keys` lists, each once, the requests among `done` that Pump settles, and `sent` their settlements.
  ghost predicate SettledEach(requests: map<string, Request>, done: set<string>, keys: seq<string>, sent: seq<Settlement>,
                        suspended: bool, now: int, pending: set<nat>) {
    && Distinct(keys) && |sent| == |keys|
    && (forall k :: k in keys <==> k in done && k in requests && requests[k].bridgeToken in pending && Outcome(requests[k], suspended, now).Some?)
    && (forall i | 0 <= i < |keys| :: keys[i] in requests && Some(sent[i]) == Outcome(requests[keys[i]], suspended, now))
  }

  lemma NothingSettled(requests: map<string, Request>, suspended: bool, now: int, pending: set<nat>)
    ensures SettledEach(requests, requests.Keys - requests.Keys, [], [], suspended, now, pending)
  {}

  lemma SettledStep(requests: map<string, Request>, todo: set<string>, k: string, keys: seq<string>, sent: seq<Settlement>,
                    suspended: bool, now: int, pending: set<nat>)
    requires k in todo && todo <= requests.Keys && SettledEach(requests, requests.Keys - todo, keys, sent, suspended, now, pending)
    ensures var done := requests.Keys - (todo - {k});
            if requests[k].bridgeToken in pending && Outcome(requests[k], suspended, now).Some?
            then SettledEach(requests, done, keys + [k], sent + [Outcome(requests[k], suspended, now).value], suspended, now, pending)
            else SettledEach(requests, done, keys, sent, suspended, now, pending)
  {
    hide Outcome;
    assert requests.Keys - (todo - {k}) == (requests.Keys - todo) + {k};
    assert k !in keys;
    assert forall x :: x in keys + [k] <==> x in keys || x == k;
  }

  // The same for the requests of a closed view.
  ghost predicate RejectedEach(requests: map<string, Request>, done: set<string>, keys: seq<string>, sent: seq<Settlement>, closed: string, pending: set<nat>) {
    && Distinct(keys) && |sent| == |keys|
    && (forall k :: k in keys <==> k in done && k in requests && requests[k].view == closed && requests[k].bridgeToken in pending)
    && (forall i | 0 <= i < |keys| :: keys[i] in requests && sent[i] == RejectTo(requests[keys[i]].bridgeToken, "view-closed"))
  }

  lemma NothingRejected(requests: map<string, Request>, closed: string, pending: set<nat>)
    ensures RejectedEach(requests, requests.Keys - requests.Keys, [], [], closed, pending)
  {}

  lemma RejectedStep(requests: map<string, Request>, todo: set<string>, k: string, keys: seq<string>, sent: seq<Settlement>, closed: string, pending: set<nat>)
    requires k in todo && todo <= requests.Keys && RejectedEach(requests, requests.Keys - todo, keys, sent, closed, pending)
    ensures var done := requests.Keys - (todo - {k});
            if requests[k].view == closed && requests[k].bridgeToken in pending
            then RejectedEach(requests, done, keys + [k], sent + [RejectTo(requests[k].bridgeToken, "view-closed")], closed, pending)
            else RejectedEach(requests, done, keys, sent, closed, pending)
  {
    assert requests.Keys - (todo - {k}) == (requests.Keys - todo) + {k};
    assert k !in keys;
    assert forall x :: x in keys + [k] <==> x in keys || x == k;
  }

  lemma NothingToReset(s: Adapter, views: seq<string>, greeted: set<string>, view: string, cache: Cache)
    requires s.resetKeys == {}
    ensures AfterResets(s, views, greeted) == s && ResetCache(s, view, cache) == cache
  {
    assert OwnKeys({}, view) == {};
  }

  // A map being rewritten key by key: the keys still to do keep their old value.
  function Merged<T>(before: map<Address, T>, after: map<Address, T>, todo: set<Address>): map<Address, T>
    requires after.Keys == before.Keys
  {
    map a | a in before :: if a in todo then before[a] else after[a]
  }

  lemma MergedStep<T>(before: map<Address, T>, after: map<Address, T>, todo: set<Address>, a: Address)
    requires after.Keys == before.Keys && a in todo && a in before
    ensures Merged(before, after, todo - {a}) == Merged(before, after, todo)[a := after[a]]
    ensures a in Merged(before, after, todo) && Merged(before, after, todo)[a] == before[a]
  {}

  lemma MergedStart<T>(before: map<Address, T>, after: map<Address, T>)
    requires after.Keys == before.Keys
    ensures Merged(before, after, before.Keys) == before
  {}

  lemma MergedEnd<T>(before: map<Address, T>, after: map<Address, T>)
    requires after.Keys == before.Keys
    ensures Merged(before, after, {}) == after
  {}

  lemma DueStep(due: set<Address>, all: set<Address>, todo: set<Address>, a: Address)
    requires a in todo && todo <= all
    ensures due - (todo - {a}) == if a in due then (due - todo) + {a} else due - todo
    ensures a !in due - todo
  {}

  function StillHeld(requests: map<string, Request>, todo: set<string>, suspended: bool, now: int, pending: set<nat>): map<string, Request> {
    map k | k in requests && (k in todo || Waits(requests[k], suspended, now, pending)) :: requests[k]
  }

  lemma HeldStep(requests: map<string, Request>, todo: set<string>, k: string, suspended: bool, now: int, pending: set<nat>)
    requires k in todo && k in requests
    ensures var held := StillHeld(requests, todo, suspended, now, pending);
            && k in held && held[k] == requests[k]
            && StillHeld(requests, todo - {k}, suspended, now, pending) == if Waits(requests[k], suspended, now, pending) then held else held - {k}
  {
    hide Waits;
  }

  lemma HeldEnds(requests: map<string, Request>, suspended: bool, now: int, pending: set<nat>)
    ensures StillHeld(requests, requests.Keys, suspended, now, pending) == requests
    ensures StillHeld(requests, {}, suspended, now, pending) == map k | k in requests && Waits(requests[k], suspended, now, pending) :: requests[k]
  {
    hide Waits, Outcome;
  }

  // The values a replay to `target` brings to a view.
  function Mine(s: Adapter, target: string, view: string): set<Address> {
    if target == view then Replayed(s, view) else {}
  }

  lemma NothingMine(s: Adapter, target: string, view: string)
    ensures Mine(s, target, view) <= s.values.Keys && (s.suspended ==> Mine(s, target, view) == {})
    ensures Mine(s, target, view) == if target == view then Replayed(s, view) else {}
  {}

  // One more address of the replay.
  lemma MineStep(s: Adapter, target: string, view: string, cache: Cache, sent: seq<Message>, todo: set<Address>, a: Address)
    requires Folded(s) && !s.suspended && a in todo && todo <= s.values.Keys
    requires SentTo(cache, ReceiveAll(view, cache, sent), s, view, Mine(s, target, view) - todo)
    ensures var more := if Owns(target, a) then sent + [DataState(target, a.1, s.values[a].value)] else sent;
            SentTo(cache, ReceiveAll(view, cache, more), s, view, Mine(s, target, view) - (todo - {a}))
  {
    hide Owns, Lower, SentTo, Folded, ReceiveAll;
    var m := DataState(target, a.1, s.values[a].value);
    var due := Mine(s, target, view);
    DueStep(due, s.values.Keys, todo, a);
    ReceiveLast(view, cache, sent, m);
    var after := if Owns(target, a) then ReceiveAll(view, cache, sent + [m]) else ReceiveAll(view, cache, sent);
    SentStep(cache, ReceiveAll(view, cache, sent), after, s, view, due - todo, a, a in due);
  }

  lemma ReplaySuspended(s: Adapter, target: string)
    requires s.suspended
    ensures AfterReplay(s, target) == s
  {}

  lemma ReplayAt(s: Adapter, target: string)
    requires !s.suspended
    ensures var after := AfterReplay(s, target);
            && after == s.(values := after.values) && after.values.Keys == s.values.Keys
            && forall a | a in s.values ::
                 after.values[a] == if Owns(target, a) then s.values[a].(delivered := s.values[a].delivered + {target}) else s.values[a]
  {
    hide Owns;
  }

  lemma NothingReceived(view: string, cache: Cache)
    ensures ReceiveAll(view, cache, []) == cache
  {}

  lemma ReceiveLast(view: string, cache: Cache, sent: seq<Message>, m: Message)
    ensures ReceiveAll(view, cache, sent + [m]) == Receive(view, ReceiveAll(view, cache, sent), m)
  {
    assert (sent + [m])[..|sent|] == sent;
  }
}
