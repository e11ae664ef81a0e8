// Convergence of the V1 state replication, and what becomes of the requests scripts answer.
module LegacyStateProofs {
  import opened Wrappers
  import opened Text
  import opened LegacyStateModel

  // `greeted` are the V1 views whose bridge gate is greeted, `said` those whose very document has said hello
  // while scripts were not suspended, which is when it gets a replay (a page can also reload itself behind an
  // open gate); `caches` are the current documents' dataState.
  datatype World = World(s: Adapter, greeted: set<string>, said: set<string>, caches: map<string, Cache>)

  datatype Action =
    | ASet(mod: string, key: string, value: string, valid: bool)
    | AResetSession
    | ASuspend(suspended: bool)
    | ANavigate(view: string)                          // a new document, its gate closed
    | AReload(reloaded: string)                        // the page reloads itself; its gate stays as it is
    | AHello(greeting: string)
    | APump(views: seq<string>)
    | AForeign(other: string, foreignKey: string, foreignValue: string) // state from another publisher

  function CacheOf(w: World, view: string): Cache {
    if view in w.caches then w.caches[view] else map[]
  }

  function Own(view: string): string {
    Lower(ModOf(view))
  }

  // `foreign` are the keys other publishers also send to these pages, such as the platform's view list.
  // The pumped list holds every greeted V1 view.
  predicate Enabled(w: World, a: Action, foreign: set<string>) {
    match a
    case APump(views) => forall v | v in w.greeted :: v in views
    case AForeign(_, key, _) => Lower(key) in foreign
    case _ => true
  }

  function PumpState(s: Adapter, views: seq<string>, greeted: set<string>): Adapter {
    AfterPublish(AfterResets(s, views, greeted), views, greeted)
  }

  ghost predicate Leads(w: World, a: Action, v: World) {
    match a
    case ASet(mod, key, value, valid) => v == w.(s := Set(w.s, mod, key, value, valid))
    case AResetSession => v == w.(s := ResetSession(w.s))
    case ASuspend(suspended) => v == w.(s := w.s.(suspended := suspended))
    case ANavigate(view) => v == w.(greeted := w.greeted - {view}, said := w.said - {view}, caches := w.caches[view := map[]])
    case AReload(view) => v == w.(said := w.said - {view}, caches := w.caches[view := map[]])
    case AHello(view) =>
      && v.s == AfterReplay(w.s, view) && v.greeted == w.greeted + {view} && v.said == (if w.s.suspended then w.said else w.said + {view})
      && SentTo(CacheOf(w, view), CacheOf(v, view), w.s, view, Replayed(w.s, view))
      && forall u | u != view :: CacheOf(v, u) == CacheOf(w, u)
    case APump(views) =>
      && v.s == PumpState(w.s, views, w.greeted) && v.greeted == w.greeted && v.said == w.said
      && forall u :: Pumped(w.s, views, w.greeted, u, CacheOf(w, u), CacheOf(v, u))
    case AForeign(view, key, value) => v == w.(caches := w.caches[view := CacheOf(w, view)[Lower(key) := value]])
  }

  // ---- one view's account ------------------------------------------------------------------------------

  predicate EntryOk(s: Adapter, view: string, cache: Cache, a: Address)
    requires a in s.values
  {
    && (view in s.values[a].delivered && a !in s.resetKeys ==> a.1 in cache && cache[a.1] == s.values[a].value)
    && (view !in s.values[a].delivered ==> s.values[a].dirty)
  }

  predicate ViewOk(s: Adapter, greeted: bool, said: bool, view: string, cache: Cache, foreign: set<string>) {
    && (said ==> greeted)
    && (!greeted ==> forall k | k in cache :: k in foreign)
    && (greeted ==> CacheOk(s, view, cache, foreign))
    && (said ==> forall a | a in s.values && a.0 == Own(view) && a.1 !in foreign :: EntryOk(s, view, cache, a))
  }

  // What a page holds is current or about to be reset.
  predicate CacheOk(s: Adapter, view: string, cache: Cache, foreign: set<string>) {
    forall k | k in cache && k !in foreign :: (Own(view), k) in s.values || (Own(view), k) in s.resetKeys
  }

  ghost predicate Inv(w: World, foreign: set<string>) {
    Folded(w.s) && forall view :: ViewOk(w.s, view in w.greeted, view in w.said, view, CacheOf(w, view), foreign)
  }

  // The page holds the mod's current values, no more and no less, other publishers' keys aside.
  ghost predicate Converged(s: Adapter, view: string, cache: Cache, foreign: set<string>) {
    forall k | k !in foreign ::
      && (k in cache <==> (Own(view), k) in s.values)
      && (k in cache ==> cache[k] == s.values[(Own(view), k)].value)
  }

  // ---- the steps -----------------------------------------------------------------------------------------

  lemma OwnsExactly(view: string, a: Address)
    requires a.0 == Lower(a.0)
    ensures Owns(view, a) <==> a.0 == Own(view)
  {}

  lemma SetKeeps(w: World, mod: string, key: string, value: string, valid: bool, foreign: set<string>)
    requires Inv(w, foreign)
    ensures Inv(w.(s := Set(w.s, mod, key, value, valid)), foreign)
  {
    hide Lower;
    var v := w.(s := Set(w.s, mod, key, value, valid));
    LowerTwice(mod);
    LowerTwice(key);
    forall view ensures ViewOk(v.s, view in v.greeted, view in v.said, view, CacheOf(v, view), foreign) {
      assert ViewOk(w.s, view in w.greeted, view in w.said, view, CacheOf(w, view), foreign);
      forall a | a in v.s.values && view in w.said && a.0 == Own(view) && a.1 !in foreign
        ensures EntryOk(v.s, view, CacheOf(v, view), a)
      {
        if v.s.values[a] != StateValue(value, true, {}) { assert EntryOk(w.s, view, CacheOf(w, view), a); }
      }
    }
  }

  lemma ResetSessionKeeps(w: World, foreign: set<string>)
    requires Inv(w, foreign)
    ensures Inv(w.(s := ResetSession(w.s)), foreign)
  {
    var v := w.(s := ResetSession(w.s));
    forall view ensures ViewOk(v.s, view in v.greeted, view in v.said, view, CacheOf(v, view), foreign) {
      assert ViewOk(w.s, view in w.greeted, view in w.said, view, CacheOf(w, view), foreign);
    }
  }

  lemma NavigateKeeps(w: World, gone: string, foreign: set<string>)
    requires Inv(w, foreign)
    ensures Inv(w.(greeted := w.greeted - {gone}, said := w.said - {gone}, caches := w.caches[gone := map[]]), foreign)
    ensures Inv(w.(said := w.said - {gone}, caches := w.caches[gone := map[]]), foreign)
  {
    var v, u := w.(greeted := w.greeted - {gone}, said := w.said - {gone}, caches := w.caches[gone := map[]]), w.(said := w.said - {gone}, caches := w.caches[gone := map[]]);
    forall view
      ensures ViewOk(v.s, view in v.greeted, view in v.said, view, CacheOf(v, view), foreign)
      ensures ViewOk(u.s, view in u.greeted, view in u.said, view, CacheOf(u, view), foreign)
    {
      assert ViewOk(w.s, view in w.greeted, view in w.said, view, CacheOf(w, view), foreign);
    }
  }

  lemma ForeignKeeps(w: World, to: string, key: string, value: string, foreign: set<string>)
    requires Inv(w, foreign) && Lower(key) in foreign
    ensures Inv(w.(caches := w.caches[to := CacheOf(w, to)[Lower(key) := value]]), foreign)
  {
    hide Lower;
    var v := w.(caches := w.caches[to := CacheOf(w, to)[Lower(key) := value]]);
    forall view ensures ViewOk(v.s, view in v.greeted, view in v.said, view, CacheOf(v, view), foreign) {
      assert ViewOk(w.s, view in w.greeted, view in w.said, view, CacheOf(w, view), foreign);
      forall a | a in v.s.values && view in w.said && a.0 == Own(view) && a.1 !in foreign
        ensures EntryOk(v.s, view, CacheOf(v, view), a)
      {
        assert EntryOk(w.s, view, CacheOf(w, view), a);
      }
    }
  }

  // A hello brings every current value, delivered.
  lemma HelloView(s: Adapter, view: string, before: Cache, after: Cache, greeted: bool, said: bool, foreign: set<string>)
    requires Folded(s) && !s.suspended && ViewOk(s, greeted, said, view, before, foreign)
    requires SentTo(before, after, s, view, Replayed(s, view))
    ensures ViewOk(AfterReplay(s, view), true, true, view, after, foreign)
  {
    hide Owns, Lower;
    var t := AfterReplay(s, view);
    forall a | a in s.values ensures Owns(view, a) <==> a.0 == Own(view) { OwnsExactly(view, a); }
    forall k | k in after && k !in foreign ensures (Own(view), k) in t.values || (Own(view), k) in t.resetKeys {
      if k in KeysOf(Replayed(s, view)) {
        var a :| a in Replayed(s, view) && k == Lower(a.1);
        assert a == (Own(view), k);
      }
    }
    forall a | a in t.values && a.0 == Own(view) && a.1 !in foreign ensures EntryOk(t, view, after, a) {
      assert a in Replayed(s, view);
    }
  }

  lemma HelloKeeps(w: World, v: World, to: string, foreign: set<string>)
    requires Inv(w, foreign) && !w.s.suspended && Leads(w, AHello(to), v)
    ensures Inv(v, foreign)
  {
    hide Owns, Lower, SentTo, Replayed;
    assert ViewOk(w.s, to in w.greeted, to in w.said, to, CacheOf(w, to), foreign);
    HelloView(w.s, to, CacheOf(w, to), CacheOf(v, to), to in w.greeted, to in w.said, foreign);
    forall view ensures ViewOk(v.s, view in v.greeted, view in v.said, view, CacheOf(v, view), foreign) {
      assert ViewOk(w.s, view in w.greeted, view in w.said, view, CacheOf(w, view), foreign);
      forall a | view != to && a in v.s.values && view in w.said && a.0 == Own(view) && a.1 !in foreign
        ensures EntryOk(v.s, view, CacheOf(v, view), a)
      {
        assert EntryOk(w.s, view, CacheOf(w, view), a);
      }
    }
  }

  // A hello during a suspension opens the gate and changes nothing else.
  lemma SuspendedHelloKeeps(w: World, v: World, to: string, foreign: set<string>)
    requires Inv(w, foreign) && w.s.suspended && Leads(w, AHello(to), v)
    ensures Inv(v, foreign)
  {
    hide Owns, Lower;
    assert Replayed(w.s, to) == {} && KeysOf({}) == {};
    forall view ensures ViewOk(v.s, view in v.greeted, view in v.said, view, CacheOf(v, view), foreign) {
      assert ViewOk(w.s, view in w.greeted, view in w.said, view, CacheOf(w, view), foreign);
      forall a | a in v.s.values && view in w.said && a.0 == Own(view) && a.1 !in foreign
        ensures EntryOk(v.s, view, CacheOf(v, view), a)
      {
        assert EntryOk(w.s, view, CacheOf(w, view), a);
      }
    }
  }

  // What the reset pass does to a pumped, greeted view's own values and cache.
  lemma AfterResetsView(s: Adapter, views: seq<string>, greeted: set<string>, view: string, cache: Cache)
    requires Folded(s) && view in views && view in greeted
    ensures var t := AfterResets(s, views, greeted); var c := ResetCache(s, view, cache);
            && t.values.Keys == s.values.Keys && t.resetKeys == {} && t.suspended == s.suspended && Folded(t)
            && (forall a | a in s.values && a.0 == Own(view) ::
                  && view in Targets(a, views, greeted) && t.values[a].value == s.values[a].value
                  && (if a in s.resetKeys then t.values[a].dirty && view !in t.values[a].delivered else t.values[a] == s.values[a]))
            && (forall k :: k in c <==> k in cache && (Own(view), k) !in s.resetKeys)
            && (forall k | k in c :: c[k] == cache[k])
  {
    hide Lower, Owns;
    var t, c := AfterResets(s, views, greeted), ResetCache(s, view, cache);
    forall a | a in s.values || a in s.resetKeys ensures Owns(view, a) <==> a.0 == Own(view) { OwnsExactly(view, a); }
    forall a | a in s.values && a.0 == Own(view) ensures view in Targets(a, views, greeted) {}
    forall k ensures k in OwnKeys(s.resetKeys, view) <==> (Own(view), k) in s.resetKeys {
      if k in OwnKeys(s.resetKeys, view) {
        var a :| a in s.resetKeys && Owns(view, a) && k == Lower(a.1);
        assert a == (Own(view), k);
      }
      if (Own(view), k) in s.resetKeys {
        assert Owns(view, (Own(view), k)) && (Own(view), k).1 == Lower(k);
      }
    }
  }

  // The values the next unsuspended pump will send to a page that may lack them.
  predicate StillDue(s: Adapter, view: string, a: Address)
    requires a in s.values
  {
    a in s.resetKeys || (s.values[a].dirty && view !in s.values[a].delivered)
  }

  predicate Has(s: Adapter, cache: Cache, a: Address)
    requires a in s.values
  {
    a.1 in cache && cache[a.1] == s.values[a].value
  }

  // What a pump that is not suspended leaves in a greeted page: the values due, and of the rest those it had.
  lemma PumpedEntries(s: Adapter, views: seq<string>, greeted: set<string>, view: string, before: Cache, after: Cache)
    requires Folded(s) && !s.suspended && view in views && view in greeted && Pumped(s, views, greeted, view, before, after)
    ensures forall a | a in s.values && a.0 == Own(view) ::
              if StillDue(s, view, a) then Has(s, after, a) else Has(s, after, a) <==> Has(s, before, a)
    ensures forall k | k in after :: (Own(view), k) in s.values || (k in before && (Own(view), k) !in s.resetKeys)
  {
    hide Lower, Owns, Targets, AfterResets, ResetCache, KeysOf;
    AfterResetsView(s, views, greeted, view, before);
    var t, c := AfterResets(s, views, greeted), ResetCache(s, view, before);
    var due := Due(t, view, views, greeted);
    forall a | a in due ensures a.0 == Own(view) { DueIsOwn(t, view, views, greeted, a); }
    forall a | a in s.values && a.0 == Own(view) ensures a in due <==> StillDue(s, view, a) {}
    KeysOfOwn(due, view);
    forall a | a in s.values && a.0 == Own(view)
      ensures if StillDue(s, view, a) then Has(s, after, a) else Has(s, after, a) <==> Has(s, before, a)
    {
      assert a == (Own(view), a.1) && a.1 == Lower(a.1);
    }
  }

  // A greeted page converges at an unsuspended pump exactly when it has every value of its mod or is due it.
  lemma PumpIff(s: Adapter, views: seq<string>, greeted: set<string>, view: string, before: Cache, after: Cache, foreign: set<string>)
    requires Folded(s) && !s.suspended && view in views && view in greeted && CacheOk(s, view, before, foreign)
    requires Pumped(s, views, greeted, view, before, after)
    ensures Converged(PumpState(s, views, greeted), view, after, foreign)
            <==> forall a | a in s.values && a.0 == Own(view) && a.1 !in foreign :: StillDue(s, view, a) || Has(s, before, a)
  {
    hide Pumped, Lower, StillDue, CacheOk;
    PumpedEntries(s, views, greeted, view, before, after);
    PumpValues(s, views, greeted);
    forall k | k in after && k !in foreign ensures (Own(view), k) in s.values { assert CacheOk(s, view, before, foreign); CacheKey(s, view, before, foreign, k); }
    if Converged(PumpState(s, views, greeted), view, after, foreign) {
      forall a | a in s.values && a.0 == Own(view) && a.1 !in foreign ensures StillDue(s, view, a) || Has(s, before, a) {
        assert a == (Own(view), a.1);
      }
    }
  }

  lemma CacheKey(s: Adapter, view: string, cache: Cache, foreign: set<string>, k: string)
    requires CacheOk(s, view, cache, foreign) && k !in foreign
    ensures k in cache ==> (Own(view), k) in s.values || (Own(view), k) in s.resetKeys
  {}

  // A pump changes no value.
  lemma PumpValues(s: Adapter, views: seq<string>, greeted: set<string>)
    ensures var t := PumpState(s, views, greeted); t.values.Keys == s.values.Keys && forall a | a in s.values :: t.values[a].value == s.values[a].value
  {
    hide Targets;
  }

  // The pump keeps a greeted view's account, and settles it when scripts are not suspended.
  lemma PumpView(s: Adapter, views: seq<string>, greeted: set<string>, said: bool, view: string, before: Cache, after: Cache, foreign: set<string>)
    requires Folded(s) && view in views && view in greeted && ViewOk(s, true, said, view, before, foreign)
    requires Pumped(s, views, greeted, view, before, after)
    ensures ViewOk(PumpState(s, views, greeted), true, said, view, after, foreign)
    ensures !s.suspended && said ==> Converged(PumpState(s, views, greeted), view, after, foreign)
  {
    hide Lower, Owns, Targets, AfterResets, ResetCache, KeysOf;
    AfterResetsView(s, views, greeted, view, before);
    var t, c := AfterResets(s, views, greeted), ResetCache(s, view, before);
    var due := Due(t, view, views, greeted);
    forall a | a in due ensures a.0 == Own(view) { DueIsOwn(t, view, views, greeted, a); }
    KeysOfOwn(due, view);
    forall k | k in after && k !in foreign ensures (Own(view), k) in s.values {}
    if said {
      forall a | a in s.values && a.0 == Own(view) && a.1 !in foreign
        ensures a in due || (view in t.values[a].delivered && a.1 in c && c[a.1] == t.values[a].value) || (s.suspended && t.values[a].dirty && view !in t.values[a].delivered)
      {
        assert EntryOk(s, view, before, a);
      }
      forall a | a in s.values && a.0 == Own(view) && a.1 !in foreign
        ensures EntryOk(PumpState(s, views, greeted), view, after, a)
        ensures !s.suspended ==> a.1 in after && after[a.1] == s.values[a].value
      {
        assert a == (Own(view), a.1) && a.1 == Lower(a.1);
      }
    }
  }

  lemma KeysOfOwn(due: set<Address>, view: string)
    requires forall a | a in due :: a.0 == Own(view) && a.1 == Lower(a.1)
    ensures forall k :: k in KeysOf(due) <==> (Own(view), k) in due
  {
    hide Lower;
    forall k ensures k in KeysOf(due) <==> (Own(view), k) in due {
      if k in KeysOf(due) {
        var a :| a in due && k == Lower(a.1);
        assert a == (Own(view), k);
      }
      if (Own(view), k) in due { assert (Own(view), k).1 == Lower(k); }
    }
  }

  lemma DueIsOwn(t: Adapter, view: string, views: seq<string>, greeted: set<string>, a: Address)
    requires Folded(t) && a in Due(t, view, views, greeted)
    ensures a.0 == Own(view)
  {
    OwnsExactly(view, a);
  }

  // A page that is not greeted gets nothing.
  lemma PumpPassesBy(s: Adapter, views: seq<string>, greeted: set<string>, view: string, before: Cache, after: Cache)
    requires view !in greeted && Pumped(s, views, greeted, view, before, after)
    ensures forall k :: (k in after <==> k in before) && (k in before ==> after[k] == before[k])
  {
    hide Owns, Lower, AfterResets;
    assert Due(AfterResets(s, views, greeted), view, views, greeted) == {};
    assert KeysOf({}) == {};
  }

  lemma PumpKeeps(w: World, v: World, views: seq<string>, foreign: set<string>)
    requires Inv(w, foreign) && Enabled(w, APump(views), foreign) && Leads(w, APump(views), v)
    ensures Inv(v, foreign)
    ensures !w.s.suspended ==> forall view | view in w.said :: Converged(v.s, view, CacheOf(v, view), foreign)
  {
    hide Pumped, PumpState, Converged;
    PumpFolded(w.s, views, w.greeted);
    forall view
      ensures ViewOk(v.s, view in v.greeted, view in v.said, view, CacheOf(v, view), foreign)
      ensures !w.s.suspended && view in w.said ==> Converged(v.s, view, CacheOf(v, view), foreign)
    {
      assert ViewOk(w.s, view in w.greeted, view in w.said, view, CacheOf(w, view), foreign);
      assert Pumped(w.s, views, w.greeted, view, CacheOf(w, view), CacheOf(v, view));
      if view in w.greeted {
        PumpView(w.s, views, w.greeted, view in w.said, view, CacheOf(w, view), CacheOf(v, view), foreign);
      } else {
        PumpPassesBy(w.s, views, w.greeted, view, CacheOf(w, view), CacheOf(v, view));
      }
    }
  }

  lemma PumpFolded(s: Adapter, views: seq<string>, greeted: set<string>)
    requires Folded(s)
    ensures Folded(PumpState(s, views, greeted))
  {
    hide Lower, Targets;
  }

  lemma NextKeeps(w: World, a: Action, v: World, foreign: set<string>)
    requires Inv(w, foreign) && Enabled(w, a, foreign) && Leads(w, a, v)
    ensures Inv(v, foreign)
  {
    hide Inv;
    match a
    case ASet(mod, key, value, valid) => SetKeeps(w, mod, key, value, valid, foreign);
    case AResetSession => ResetSessionKeeps(w, foreign);
    case ASuspend(suspended) => SuspendKeeps(w, suspended, foreign);
    case ANavigate(view) => NavigateKeeps(w, view, foreign);
    case AReload(view) => NavigateKeeps(w, view, foreign);
    case AHello(view) => if w.s.suspended { SuspendedHelloKeeps(w, v, view, foreign); } else { HelloKeeps(w, v, view, foreign); }
    case APump(views) => PumpKeeps(w, v, views, foreign);
    case AForeign(view, key, value) => ForeignKeeps(w, view, key, value, foreign);
  }

  lemma SuspendKeeps(w: World, suspended: bool, foreign: set<string>)
    requires Inv(w, foreign)
    ensures Inv(w.(s := w.s.(suspended := suspended)), foreign)
  {
    var v := w.(s := w.s.(suspended := suspended));
    forall view ensures ViewOk(v.s, view in v.greeted, view in v.said, view, CacheOf(v, view), foreign) {
      assert ViewOk(w.s, view in w.greeted, view in w.said, view, CacheOf(w, view), foreign);
      forall a | a in v.s.values && view in w.said && a.0 == Own(view) && a.1 !in foreign
        ensures EntryOk(v.s, view, CacheOf(v, view), a)
      {
        assert EntryOk(w.s, view, CacheOf(w, view), a);
      }
    }
  }

  // ---- runs ------------------------------------------------------------------------------------------------

  ghost predicate Step(w: World, a: Action, v: World, foreign: set<string>) {
    Enabled(w, a, foreign) && Leads(w, a, v)
  }

  ghost predicate Execution(worlds: seq<World>, actions: seq<Action>, foreign: set<string>) {
    && |worlds| == |actions| + 1 && worlds[0] == World(Initial, {}, {}, map[])
    && forall i | 0 <= i < |actions| :: Step(worlds[i], actions[i], worlds[i + 1], foreign)
  }

  lemma {:induction false} ExecutionKeeps(worlds: seq<World>, actions: seq<Action>, foreign: set<string>, n: nat)
    requires Execution(worlds, actions, foreign) && n <= |actions|
    ensures Inv(worlds[n], foreign)
  {
    if n > 0 {
      hide Inv, Leads, Enabled;
      ExecutionKeeps(worlds, actions, foreign, n - 1);
      assert Step(worlds[n - 1], actions[n - 1], worlds[n], foreign);
      NextKeeps(worlds[n - 1], actions[n - 1], worlds[n], foreign);
    }
  }

  // After any interleaving, an unsuspended pump leaves every page that has said hello with exactly the current
  // values of its mod.
  lemma PumpConverges(worlds: seq<World>, actions: seq<Action>, foreign: set<string>, n: nat, view: string)
    requires Execution(worlds, actions, foreign) && n < |actions|
    requires actions[n].APump? && !worlds[n].s.suspended && view in worlds[n].said
    ensures Converged(worlds[n + 1].s, view, CacheOf(worlds[n + 1], view), foreign)
  {
    hide Inv, Leads, Enabled, Converged;
    ExecutionKeeps(worlds, actions, foreign, n);
    assert Step(worlds[n], actions[n], worlds[n + 1], foreign);
    PumpKeeps(worlds[n], worlds[n + 1], actions[n].views, foreign);
  }

  // ---- a hello while suspended --------------------------------------------------------------------------------

  // Over every run, an unsuspended pump leaves a page whose gate is greeted, whatever it said and when, with
  // exactly its mod's current values if and only if each of them was still due to it or already there. A page
  // that said hello during a suspension got no replay, and so may lack some.
  lemma PumpConvergesExactlyWhen(worlds: seq<World>, actions: seq<Action>, foreign: set<string>, n: nat, view: string)
    requires Execution(worlds, actions, foreign) && n < |actions|
    requires actions[n].APump? && !worlds[n].s.suspended && view in worlds[n].greeted
    ensures var w, v := worlds[n], worlds[n + 1];
            Converged(v.s, view, CacheOf(v, view), foreign)
            <==> forall a | a in w.s.values && a.0 == Own(view) && a.1 !in foreign :: StillDue(w.s, view, a) || Has(w.s, CacheOf(w, view), a)
  {
    hide Converged, PumpState, Pumped, CacheOk, StillDue, Has, Lower;
    ExecutionKeeps(worlds, actions, foreign, n);
    var w, v := worlds[n], worlds[n + 1];
    assert Step(w, actions[n], v, foreign);
    assert ViewOk(w.s, true, view in w.said, view, CacheOf(w, view), foreign);
    assert Pumped(w.s, actions[n].views, w.greeted, view, CacheOf(w, view), CacheOf(v, view));
    PumpIff(w.s, actions[n].views, w.greeted, view, CacheOf(w, view), CacheOf(v, view), foreign);
  }

  // So for a page that says hello during a suspension, with the resume and a pump next, it is decided at its hello.
  lemma SuspendedHelloConvergesExactlyWhen(worlds: seq<World>, actions: seq<Action>, foreign: set<string>, n: nat, view: string)
    requires Execution(worlds, actions, foreign) && n + 2 < |actions|
    requires worlds[n].s.suspended && actions[n] == AHello(view) && actions[n + 1] == ASuspend(false) && actions[n + 2].APump?
    ensures var w, v := worlds[n], worlds[n + 3];
            Converged(v.s, view, CacheOf(v, view), foreign)
            <==> forall a | a in w.s.values && a.0 == Own(view) && a.1 !in foreign :: StillDue(w.s, view, a) || Has(w.s, CacheOf(w, view), a)
  {
    hide Converged, Lower, Pumped, PumpState;
    assert Step(worlds[n], actions[n], worlds[n + 1], foreign) && Step(worlds[n + 1], actions[n + 1], worlds[n + 2], foreign);
    assert Replayed(worlds[n].s, view) == {} && KeysOf({}) == {};
    PumpConvergesExactlyWhen(worlds, actions, foreign, n + 2, view);
  }

  // It does fail: a value set, replayed and pumped to a page is clean; when the page is then replaced and says
  // hello during a suspension, the pump after it gives the new page nothing.
  lemma SuspendedHelloLosesAValue(view: string, key: string, value: string)
    ensures exists worlds: seq<World>, actions: seq<Action> ::
              && Execution(worlds, actions, {}) && |actions| == 8 && actions[5] == AHello(view) && worlds[5].s.suspended
              && actions[7] == APump([view]) && !worlds[7].s.suspended && view in worlds[7].greeted
              && !Converged(worlds[8].s, view, CacheOf(worlds[8], view), {})
  {
    hide Lower, Inv, Converged, Leads, Enabled;
    var worlds, actions := LosingRun(view, key, value);
    var w, a := worlds[7], AddressOf(view, key);
    PumpConvergesExactlyWhen(worlds, actions, {}, 7, view);
    assert a.0 == Own(view) && !StillDue(w.s, view, a) && !Has(w.s, CacheOf(w, view), a);
  }

  // With no reset and nothing dirty a pump leaves a page as it is.
  lemma NothingDue(s: Adapter, view: string, greeted: set<string>, to: string, cache: Cache)
    requires s.resetKeys == {} && forall a | a in s.values :: !s.values[a].dirty
    ensures Pumped(s, [view], greeted, to, cache, cache)
  {
    hide Owns, Lower;
    var t := AfterResets(s, [view], greeted);
    assert Due(t, to, [view], greeted) == {};
    assert KeysOf({}) == {} && OwnKeys({}, to) == {};
    assert ResetCache(s, to, cache) == cache;
  }

  // Set a value, say hello, pump, suspend, replace the page, say hello again, resume, pump.
  lemma LosingRun(view: string, key: string, value: string) returns (worlds: seq<World>, actions: seq<Action>)
    ensures Execution(worlds, actions, {}) && |actions| == 8 && actions[5] == AHello(view) && worlds[5].s.suspended
    ensures actions[7] == APump([view]) && !worlds[7].s.suspended && view in worlds[7].greeted
    ensures var w, a := worlds[7], AddressOf(view, key);
            w.s.resetKeys == {} && a in w.s.values && !w.s.values[a].dirty && CacheOf(w, view) == map[]
  {
    hide Lower, Pumped, SentTo, AfterReplay, PumpState, OneValue, HelloWorld, PumpedWorld, Initial, Enabled;
    var w0 := World(Initial, {}, {}, map[]);
    var w1, w2, w3 := w0.(s := OneValue(view, key, value)), HelloWorld(view, key, value), PumpedWorld(view, key, value);
    var w4 := w3.(s := w3.s.(suspended := true));
    var w5 := w4.(greeted := w4.greeted - {view}, said := w4.said - {view}, caches := w4.caches[view := map[]]);
    var w6 := w5.(greeted := w5.greeted + {view});
    var w7 := w6.(s := w6.s.(suspended := false));
    var w8 := w7.(s := PumpState(w7.s, [view], w7.greeted));
    worlds := [w0, w1, w2, w3, w4, w5, w6, w7, w8];
    actions := [ASet(ModOf(view), key, value, true), AHello(view), APump([view]), ASuspend(true), ANavigate(view), AHello(view), ASuspend(false), APump([view])];
    LosingSet(view, key, value);
    LosingHello(view, key, value);
    LosingPump(view, key, value);
    PumpedClean(view, key, value);
    LosingRest(w3, view);
    LosingAgain(w5, view);
  }

  lemma LosingAgain(w: World, view: string)
    requires w.s.suspended && w.greeted == {} && w.s.resetKeys == {} && forall a | a in w.s.values :: !w.s.values[a].dirty
    ensures var v := w.(greeted := w.greeted + {view}); var u := v.(s := v.s.(suspended := false));
            && Step(w, AHello(view), v, {}) && Step(v, ASuspend(false), u, {})
            && Step(u, APump([view]), u.(s := PumpState(u.s, [view], u.greeted)), {})
  {
    hide Owns, Lower, PumpState, Pumped;
    var u := w.(greeted := w.greeted + {view}, s := w.s.(suspended := false));
    assert Replayed(w.s, view) == {} && KeysOf({}) == {};
    forall to: string { NothingDue(u.s, view, u.greeted, to, CacheOf(u, to)); }
  }

  lemma LosingRest(w: World, view: string)
    ensures var v := w.(s := w.s.(suspended := true));
            && Step(w, ASuspend(true), v, {})
            && Step(v, ANavigate(view), v.(greeted := v.greeted - {view}, said := v.said - {view}, caches := v.caches[view := map[]]), {})
  {}

  lemma PumpedClean(view: string, key: string, value: string)
    ensures PumpedWorld(view, key, value).s == OneValue(view, key, value).(values := map[AddressOf(view, key) := StateValue(value, false, {view})])
    ensures OneValue(view, key, value).resetKeys == {}
  {
    hide Lower, Pumped, SentTo;
    FirstHello(view, key, value);
    FirstPump(view, key, value);
  }

  function HelloWorld(view: string, key: string, value: string): World {
    World(AfterReplay(OneValue(view, key, value), view), {view}, {view}, map[view := map[AddressOf(view, key).1 := value]])
  }

  function PumpedWorld(view: string, key: string, value: string): World {
    var w := HelloWorld(view, key, value);
    w.(s := PumpState(w.s, [view], {view}))
  }

  lemma LosingSet(view: string, key: string, value: string)
    ensures var w := World(Initial, {}, {}, map[]);
            Step(w, ASet(ModOf(view), key, value, true), w.(s := OneValue(view, key, value)), {})
  {
    hide Lower;
  }

  lemma LosingHello(view: string, key: string, value: string)
    ensures Step(World(OneValue(view, key, value), {}, {}, map[]), AHello(view), HelloWorld(view, key, value), {})
  {
    hide Lower, SentTo, AfterReplay, Replayed;
    FirstHello(view, key, value);
  }

  lemma LosingPump(view: string, key: string, value: string)
    ensures Step(HelloWorld(view, key, value), APump([view]), PumpedWorld(view, key, value), {})
  {
    hide Lower, Pumped, PumpState, AfterReplay;
    FirstPump(view, key, value);
  }

  function OneValue(view: string, key: string, value: string): Adapter {
    Set(Initial, ModOf(view), key, value, true)
  }

  lemma FirstHello(view: string, key: string, value: string)
    ensures var s, a := OneValue(view, key, value), AddressOf(view, key);
            && s.values == map[a := StateValue(value, true, {})]
            && AfterReplay(s, view) == s.(values := map[a := StateValue(value, true, {view})])
            && SentTo(map[], map[a.1 := value], s, view, Replayed(s, view))
  {
    hide Lower;
    var s, a := OneValue(view, key, value), AddressOf(view, key);
    LowerTwice(ModOf(view));
    LowerTwice(key);
    assert Owns(view, a) && Replayed(s, view) == {a};
    assert KeysOf({a}) == {a.1};
  }

  lemma FirstPump(view: string, key: string, value: string)
    ensures var s, a := AfterReplay(OneValue(view, key, value), view), AddressOf(view, key);
            && PumpState(s, [view], {view}) == s.(values := map[a := StateValue(value, false, {view})])
            && forall u: string, cache: Cache :: Pumped(s, [view], {view}, u, cache, cache)
  {
    hide Lower;
    FirstHello(view, key, value);
    var s, a := AfterReplay(OneValue(view, key, value), view), AddressOf(view, key);
    assert AfterResets(s, [view], {view}) == s;
    LowerTwice(ModOf(view));
    assert Owns(view, a) && Targets(a, [view], {view}) == {view};
    forall u: string, cache: Cache ensures Pumped(s, [view], {view}, u, cache, cache) {
      NothingNew(s, view, u, cache);
    }
  }

  // A pump with no reset sends nothing to a page that has had every value it is a target of.
  lemma NothingNew(s: Adapter, view: string, to: string, cache: Cache)
    requires s.resetKeys == {} && forall a | a in s.values :: view in s.values[a].delivered
    ensures Pumped(s, [view], {view}, to, cache, cache)
  {
    hide Owns, Lower;
    assert AfterResets(s, [view], {view}) == s;
    assert Due(s, to, [view], {view}) == {};
    assert KeysOf({}) == {} && OwnKeys({}, to) == {};
    assert cache - {} == cache;
  }

  // ---- requests ------------------------------------------------------------------------------------------------

  // After an unsuspended pump the only requests left are unanswered ones before their deadline whose bridge
  // token is still pending; every other one was settled by exactly the outcome its record gives, or its
  // token was gone.
  lemma PumpLeavesOnlyOpenRequests(s: Adapter, now: int, pending: set<nat>, k: string)
    requires !s.suspended && k in s.requests
    ensures var r := s.requests[k];
            k in AfterSettling(s, now, pending).requests <==> !r.answered && now < r.deadline && r.bridgeToken in pending
    ensures k in AfterSettling(s, now, pending).requests ==> AfterSettling(s, now, pending).requests[k] == s.requests[k]
  {}

  // A session change cancels every request, answered or not; the next unsuspended pump rejects each one the
  // bridge still holds with "game-load" and keeps none.
  lemma SessionChangeCancelsEveryRequest(s: Adapter, now: int, pending: set<nat>)
    requires !s.suspended
    ensures var t := ResetSession(s);
            && AfterSettling(t, now, pending).requests == map[]
            && Settlements(t.requests, t.requests.Keys, t.suspended, now, pending) ==
               set k | k in s.requests && s.requests[k].bridgeToken in pending :: RejectTo(s.requests[k].bridgeToken, "game-load")
  {
    var t := ResetSession(s);
    assert forall k | k in s.requests :: Outcome(t.requests[k], t.suspended, now) == Some(RejectTo(s.requests[k].bridgeToken, "game-load"));
    var got, want := Settlements(t.requests, t.requests.Keys, t.suspended, now, pending),
                     set k | k in s.requests && s.requests[k].bridgeToken in pending :: RejectTo(s.requests[k].bridgeToken, "game-load");
    forall x | x in want ensures x in got {
      var k :| k in s.requests && s.requests[k].bridgeToken in pending && x == RejectTo(s.requests[k].bridgeToken, "game-load");
      assert k in t.requests;
    }
  }

  // The first answer in time wins: it is what the next unsuspended pump sends, and a second one is refused.
  lemma FirstAnswerWins(s: Adapter, token: string, value: string, code: string, rejected: bool, now: int, later: int, pending: set<nat>)
    requires CanReply(s, token, true, now)
    ensures var t := Reply(s, token, value, code, rejected, true, now); var k := Lower(token);
            && !CanReply(t, token, true, later)
            && k in t.requests
            && Outcome(t.requests[k], false, later) ==
               Some(if !rejected then RespondTo(s.requests[k].bridgeToken, value)
                    else RejectTo(s.requests[k].bridgeToken, if code == "" then "papyrus-rejected" else code))
            && forall j | j in s.requests && j != k :: j in t.requests && t.requests[j] == s.requests[j]
  {
    hide Lower;
  }
}
