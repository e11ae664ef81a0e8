// What the script last set. The expected store is read off the actions alone, without the adapter's own step.
module LegacyLastValues {
  import opened Wrappers
  import opened Text
  import opened LegacyStateModel
  import opened LegacyStateProofs

  predicate SuspendedAsked(actions: seq<Action>, n: nat)
    requires n <= |actions|
  {
    if n == 0 then false
    else match actions[n - 1]
      case ASuspend(suspended) => suspended
      case _ => SuspendedAsked(actions, n - 1)
  }

  // Step k sets the address: a valid value, and scripts not suspended.
  predicate SetsAt(actions: seq<Action>, k: nat, a: Address)
    requires k < |actions|
  {
    actions[k].ASet? && actions[k].valid && !SuspendedAsked(actions, k) && a == (Lower(actions[k].mod), Lower(actions[k].key))
  }

  // The value last set at an address since the last session change.
  function LastSet(actions: seq<Action>, n: nat, a: Address): Option<string>
    requires n <= |actions|
  {
    if n == 0 || actions[n - 1].AResetSession? then None
    else if SetsAt(actions, n - 1, a) then Some(actions[n - 1].value)
    else LastSet(actions, n - 1, a)
  }

  // ---- one step ---------------------------------------------------------------------------------------------

  // The step keeps every address with its value.
  predicate KeepsValues(s: Adapter, t: Adapter) {
    t.values.Keys == s.values.Keys && forall a | a in s.values :: t.values[a].value == s.values[a].value
  }

  lemma SendingKeepsValues(s: Adapter, views: seq<string>, greeted: set<string>, view: string)
    ensures KeepsValues(s, AfterReplay(s, view)) && AfterReplay(s, view).suspended == s.suspended
    ensures KeepsValues(s, PumpState(s, views, greeted)) && PumpState(s, views, greeted).suspended == s.suspended
  {
    hide Owns, Targets;
  }

  ghost predicate FollowsSet(s: Adapter, a: Address, value: string, t: Adapter) {
    && (a in t.values <==> a in s.values || |s.values| < 1024)
    && (a in t.values ==> t.values[a].value == value)
    && (forall b | b != a :: (b in t.values <==> b in s.values) && (b in s.values ==> t.values[b] == s.values[b]))
  }

  lemma SetFollows(s: Adapter, mod: string, key: string, value: string)
    requires !s.suspended
    ensures FollowsSet(s, (Lower(mod), Lower(key)), value, Set(s, mod, key, value, true))
  {
    hide Lower;
  }

  // ---- every run ---------------------------------------------------------------------------------------------

  lemma {:induction false} SuspendedExactlyAsAsked(worlds: seq<World>, actions: seq<Action>, foreign: set<string>, n: nat)
    requires Execution(worlds, actions, foreign) && n <= |actions|
    ensures worlds[n].s.suspended <==> SuspendedAsked(actions, n)
  {
    hide Lower, Enabled, Pumped, SentTo, PumpState, AfterReplay;
    if n > 0 {
      SuspendedExactlyAsAsked(worlds, actions, foreign, n - 1);
      assert Step(worlds[n - 1], actions[n - 1], worlds[n], foreign);
      var a, s := actions[n - 1], worlds[n - 1].s;
      SendingKeepsValues(s, if a.APump? then a.views else [], worlds[n - 1].greeted, if a.AHello? then a.greeting else "");
    }
  }

  // A step that sets an address admits it exactly when it is there already or fewer than 1024 are; one that does not
  // set it leaves it as it is, unless it changes the session, which empties the store.
  lemma StoreFollowsTheActions(worlds: seq<World>, actions: seq<Action>, foreign: set<string>, k: nat, a: Address)
    requires Execution(worlds, actions, foreign) && k < |actions|
    ensures var s, t := worlds[k].s, worlds[k + 1].s;
            if actions[k].AResetSession? then t.values == map[]
            else if SetsAt(actions, k, a) then FollowsSet(s, a, actions[k].value, t)
            else (a in t.values <==> a in s.values) && (a in s.values ==> t.values[a].value == s.values[a].value)
  {
    hide Lower, Enabled, Pumped, SentTo, PumpState, AfterReplay, Set, FollowsSet;
    SuspendedExactlyAsAsked(worlds, actions, foreign, k);
    assert Step(worlds[k], actions[k], worlds[k + 1], foreign);
    var s := worlds[k].s;
    match actions[k]
    case ASet(mod, key, value, valid) => SetSteps(s, mod, key, value, valid, a);
    case AHello(view) => SendingKeepsValues(s, [], {}, view);
    case APump(views) => SendingKeepsValues(s, views, worlds[k].greeted, "");
    case _ =>
  }

  lemma SetSteps(s: Adapter, mod: string, key: string, value: string, valid: bool, a: Address)
    ensures var t := Set(s, mod, key, value, valid);
            if valid && !s.suspended && a == (Lower(mod), Lower(key)) then FollowsSet(s, a, value, t)
            else (a in t.values <==> a in s.values) && (a in s.values ==> t.values[a].value == s.values[a].value)
  {
    hide Lower;
  }

  // The store holds, for every address it has, the value last set there; an address that was set but is not held
  // was refused by a store that is full, and stays so until the session changes.
  lemma {:induction false} StoreHoldsTheLastValuesSet(worlds: seq<World>, actions: seq<Action>, foreign: set<string>, n: nat, a: Address)
    requires Execution(worlds, actions, foreign) && n <= |actions|
    ensures |worlds[n].s.values| <= 1024
    ensures a in worlds[n].s.values ==> LastSet(actions, n, a) == Some(worlds[n].s.values[a].value)
    ensures LastSet(actions, n, a).Some? && a !in worlds[n].s.values ==> |worlds[n].s.values| == 1024
  {
    hide Lower, Step, SetsAt;
    if n > 0 {
      StoreHoldsTheLastValuesSet(worlds, actions, foreign, n - 1, a);
      StoreFollowsTheActions(worlds, actions, foreign, n - 1, a);
      StoreGrowsOnly(worlds, actions, foreign, n - 1);
    }
  }

  lemma SameOrOneMore(s: set<Address>, t: set<Address>, a: Address)
    requires forall b | b != a :: b in t <==> b in s
    requires a in s ==> a in t
    ensures |s| <= |t| <= |s| + 1 && (t != s ==> |t| == |s| + 1 && a in t && a !in s)
  {
    assert t == s || t == s + {a};
  }

  // The store never shrinks within a session, and never beyond 1024.
  lemma StoreGrowsOnly(worlds: seq<World>, actions: seq<Action>, foreign: set<string>, k: nat)
    requires Execution(worlds, actions, foreign) && k < |actions| && |worlds[k].s.values| <= 1024
    ensures |worlds[k + 1].s.values| <= 1024
    ensures !actions[k].AResetSession? ==> |worlds[k].s.values| <= |worlds[k + 1].s.values|
  {
    hide Lower, Step, SetsAt, FollowsSet;
    var s, t := worlds[k].s, worlds[k + 1].s;
    if actions[k].AResetSession? {
      StoreFollowsTheActions(worlds, actions, foreign, k, ("", ""));
    } else {
      var a := if actions[k].ASet? then (Lower(actions[k].mod), Lower(actions[k].key)) else ("", "");
      forall b: Address | b != a ensures b in t.values <==> b in s.values {
        StoreFollowsTheActions(worlds, actions, foreign, k, b);
        if SetsAt(actions, k, b) { SetsOnlyThere(actions, k, b); }
      }
      StoreFollowsTheActions(worlds, actions, foreign, k, a);
      if SetsAt(actions, k, a) {
        SetsOnlyThere(actions, k, a);
        Admitted(s, a, actions[k].value, t);
      }
      SameOrOneMore(s.values.Keys, t.values.Keys, a);
    }
  }

  lemma Admitted(s: Adapter, a: Address, value: string, t: Adapter)
    requires FollowsSet(s, a, value, t)
    ensures a in t.values <==> a in s.values || |s.values| < 1024
  {}

  lemma SetsOnlyThere(actions: seq<Action>, k: nat, b: Address)
    requires k < |actions| && SetsAt(actions, k, b)
    ensures actions[k].ASet? && b == (Lower(actions[k].mod), Lower(actions[k].key))
  {}

  // After any interleaving, an unsuspended pump leaves in every page that has said hello the last values the script
  // set for its mod in this session: whatever the page holds is one, and each one is there unless the store was full.
  lemma PumpedPageHoldsTheLastValuesSet(worlds: seq<World>, actions: seq<Action>, foreign: set<string>, n: nat, view: string, key: string)
    requires Execution(worlds, actions, foreign) && n < |actions| && key !in foreign
    requires actions[n].APump? && !SuspendedAsked(actions, n) && view in worlds[n].said
    ensures var cache, last := CacheOf(worlds[n + 1], view), LastSet(actions, n, (Own(view), key));
            && (key in cache ==> last == Some(cache[key]))
            && (last.Some? && key !in cache ==> |worlds[n].s.values| == 1024)
  {
    hide Lower, Step, LastSet;
    SuspendedExactlyAsAsked(worlds, actions, foreign, n);
    PumpConverges(worlds, actions, foreign, n, view);
    StoreHoldsTheLastValuesSet(worlds, actions, foreign, n, (Own(view), key));
    StoreFollowsTheActions(worlds, actions, foreign, n, (Own(view), key));
  }

  // With fewer than 1024 values held nothing was refused: the page holds exactly the last values set.
  lemma PageHoldsExactlyTheLastValuesSet(worlds: seq<World>, actions: seq<Action>, foreign: set<string>, n: nat, view: string, key: string)
    requires Execution(worlds, actions, foreign) && n < |actions| && key !in foreign && |worlds[n].s.values| < 1024
    requires actions[n].APump? && !SuspendedAsked(actions, n) && view in worlds[n].said
    ensures var cache := CacheOf(worlds[n + 1], view);
            LastSet(actions, n, (Own(view), key)) == if key in cache then Some(cache[key]) else None
  {
    hide Lower, Execution, LastSet;
    PumpedPageHoldsTheLastValuesSet(worlds, actions, foreign, n, view, key);
  }
}
