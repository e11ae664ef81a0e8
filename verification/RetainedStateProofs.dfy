// Coherence of retained state: a document that said hello holds the store's latest value for every entry
// of its mod, whichever of publish, hello, reload or session clear came first.
module RetainedStateProofs {
  import opened Wrappers
  import opened Text
  import opened RetainedStateModel

  // ---- the store ---------------------------------------------------------------------------------------

  function FoldedKeys(entries: seq<Entry>): (r: seq<string>)
    ensures |r| == |entries| && forall i | 0 <= i < |r| :: r[i] == Lower(entries[i].key)
  {
    if entries == [] then [] else [Lower(entries[0].key)] + FoldedKeys(entries[1..])
  }

  // At most one entry per folded key.
  predicate DistinctKeys(entries: seq<Entry>) {
    forall i, j | 0 <= i < j < |entries| :: !SameFolded(entries[i].key, entries[j].key)
  }

  predicate Named(entries: seq<Entry>) {
    forall i | 0 <= i < |entries| :: entries[i].key != ""
  }

  predicate StoreOk(s: Store) {
    && |s| <= MAX_MODS
    && forall m | m in s :: |s[m]| <= MAX_KEYS_PER_MOD && DistinctKeys(s[m]) && Named(s[m])
  }

  // Setting a known key replaces its entry where it stands; a new key goes last.
  lemma SetKeepsEntries(entries: seq<Entry>, key: string, value: string, sessionScoped: bool)
    requires DistinctKeys(entries) && Named(entries) && key != ""
    ensures var after, i := SetEntries(entries, key, value, sessionScoped), IndexOf(entries, key);
            && DistinctKeys(after) && Named(after)
            && after[i] == Entry(key, value, sessionScoped)
            && FoldedKeys(after) == (if i < |entries| then FoldedKeys(entries) else FoldedKeys(entries) + [Lower(key)])
            && forall k | 0 <= k < |entries| && k != i :: after[k] == entries[k] && !SameFolded(key, entries[k].key)
  {
    hide Lower;
    var after, i := SetEntries(entries, key, value, sessionScoped), IndexOf(entries, key);
    forall k | 0 <= k < |entries| && k != i ensures !SameFolded(key, entries[k].key) {
      if i < k { assert !SameFolded(entries[i].key, entries[k].key); }
    }
    forall j, k | 0 <= j < k < |after| ensures !SameFolded(after[j].key, after[k].key) {
      if j != i && k != i { assert !SameFolded(entries[j].key, entries[k].key); }
    }
  }

  // A retained value goes into its mod's bucket; the bounds hold and other mods are untouched.
  lemma SetKeepsStore(s: Store, mod: string, key: string, value: string, sessionScoped: bool)
    requires StoreOk(s)
    ensures var t := Set(s, mod, key, value, sessionScoped);
            && StoreOk(t)
            && Bucket(t, mod) == (if Retains(s, mod, key) then SetEntries(Bucket(s, mod), key, value, sessionScoped) else Bucket(s, mod))
            && forall m | m != Lower(mod) :: (m in t <==> m in s) && (m in s ==> t[m] == s[m])
  {
    hide DistinctKeys, Named, IndexOf, Lower;
    if Retains(s, mod, key) {
      EmptyIsOk();
      SetKeepsEntries(Bucket(s, mod), key, value, sessionScoped);
      AddKey(s, Lower(mod), SetEntries(Bucket(s, mod), key, value, sessionScoped));
    }
  }

  lemma AddKey(s: Store, m: string, entries: seq<Entry>)
    ensures |s[m := entries]| == if m in s then |s| else |s| + 1
  {
    assert s[m := entries].Keys == s.Keys + {m};
    assert |s[m := entries]| == |s[m := entries].Keys| && |s| == |s.Keys|;
  }

  lemma EmptyIsOk()
    ensures DistinctKeys([]) && Named([])
  {}

  // `part` is what is left of `whole` after some entries are struck out.
  predicate InOrder(part: seq<Entry>, whole: seq<Entry>) {
    if part == [] then true
    else whole != [] && (InOrder(part, whole[1..]) || (part[0] == whole[0] && InOrder(part[1..], whole[1..])))
  }

  // Clearing a session keeps the other entries, in order.
  lemma {:induction false} KeptKeepsOrder(entries: seq<Entry>)
    requires DistinctKeys(entries)
    ensures var kept := Kept(entries);
            && DistinctKeys(kept) && |kept| <= |entries| && InOrder(kept, entries)
            && (forall e :: e in kept <==> e in entries && !e.sessionScoped)
  {
    if entries != [] {
      KeptKeepsOrder(entries[1..]);
      assert forall e | e in entries[1..] :: !SameFolded(entries[0].key, e.key);
    }
  }

  lemma ClearKeepsStore(s: Store)
    requires StoreOk(s)
    ensures var t := ClearSessionScoped(s);
            && StoreOk(t)
            && forall m, e :: (m in t && e in t[m]) <==> (m in s && e in s[m] && !e.sessionScoped)
  {
    var t := ClearSessionScoped(s);
    FewerKeys(t.Keys, s.Keys);
    forall m | m in s
      ensures DistinctKeys(Kept(s[m])) && |Kept(s[m])| <= |s[m]| && (forall e :: e in Kept(s[m]) <==> e in s[m] && !e.sessionScoped)
    {
      KeptKeepsOrder(s[m]);
    }
  }

  lemma FewerKeys(a: set<string>, b: set<string>)
    requires a <= b
    ensures |a| <= |b|
  {
    if a != {} {
      var x :| x in a;
      FewerKeys(a - {x}, b - {x});
    }
  }

  // ---- documents -----------------------------------------------------------------------------------------

  // What was sent to a document, oldest first: a value of its mod under this folded key, or the platform's view
  // list.
  datatype Write = Put(key: string, value: string) | Listed(list: string)

  // Per view: the cache of its current document, whether the bridge's gate is greeted, whether this very
  // document has said hello (a page can reload itself behind an open gate), and what it was sent.
  datatype Doc = Doc(greeted: bool, said: bool, cache: Cache, writes: seq<Write>)

  datatype World = World(store: Store, docs: map<string, Doc>)

  datatype Action =
    | Publish(mod: string, key: string, value: string, sessionScoped: bool)
    | SessionReset
    | Navigate(view: string)           // OnViewCreated, then AddInstantiated when the view is new
    | TearDown(gone: string)
    | PageReload(reloaded: string)
    | Hello(greeting: string)
    | PublishViews(list: string)

  // Mod ids have no slash and are not the platform's (IsValidModId).
  predicate ModAllowed(mod: string) {
    mod != "" && '/' !in mod && Lower(mod) != "osfui"
  }

  predicate Enabled(w: World, a: Action) {
    match a
    case Publish(mod, _, _, _) => ModAllowed(mod)
    case Navigate(view) => ModAllowed(ModOf(view))
    case PageReload(view) => view in w.docs
    case Hello(view) => view in w.docs
    case _ => true
  }

  function Own(view: string): string {
    Lower(ModOf(view))
  }

  function Receive(view: string, d: Doc, mod: string, key: string, value: string): Doc {
    d.(cache := DeliverState(d.cache, Own(view), mod, key, value), writes := d.writes + [Put(Lower(key), value)])
  }

  function ReceiveList(view: string, d: Doc, list: string): Doc {
    d.(cache := DeliverState(d.cache, Own(view), "osfui", "views", list), writes := d.writes + [Listed(list)])
  }

  // PublishModState reaches the greeted instantiated views of the mod.
  function Published(docs: map<string, Doc>, mod: string, key: string, value: string): map<string, Doc> {
    map v | v in docs ::
      if docs[v].greeted && SameFolded(ModOf(v), mod) then Receive(v, docs[v], mod, key, value) else docs[v]
  }

  function Replay(view: string, d: Doc, entries: seq<Entry>): Doc
    decreases |entries|
  {
    if entries == [] then d else
    var last := entries[|entries| - 1];
    Receive(view, Replay(view, d, entries[..|entries| - 1]), ModOf(view), last.key, last.value)
  }

  function Greeted(w: World, view: string, list: string): Doc
    requires view in w.docs
  {
    Replay(view, ReceiveList(view, w.docs[view].(greeted := true, said := true), list), Bucket(w.store, ModOf(view)))
  }

  // `list` is the platform's current view list, which a hello replays first.
  function Next(w: World, a: Action, list: string): World
    requires Enabled(w, a)
  {
    match a
    case Publish(mod, key, value, sessionScoped) =>
      World(Set(w.store, mod, key, value, sessionScoped), Published(w.docs, mod, key, value))
    case SessionReset => w.(store := ClearSessionScoped(w.store))
    case Navigate(view) => w.(docs := w.docs[view := Doc(false, false, map[], [])])
    case TearDown(view) => w.(docs := w.docs - {view})
    case PageReload(view) => w.(docs := w.docs[view := w.docs[view].(said := false, cache := map[], writes := [])])
    case Hello(view) => w.(docs := w.docs[view := Greeted(w, view, list)])
    case PublishViews(newList) =>
      w.(docs := map v | v in w.docs :: if w.docs[v].greeted then ReceiveList(v, w.docs[v], newList) else w.docs[v])
  }

  // ---- coherence --------------------------------------------------------------------------------------------

  const PLATFORM_VIEWS := "osfui/views"

  // The cache holds an entry under its address and under its own name.
  predicate Holds(view: string, cache: Cache, e: Entry) {
    var address := Address(ModOf(view), e.key);
    && address in cache && cache[address] == e.value
    && Lower(e.key) in cache && cache[Lower(e.key)] == e.value
  }

  // One key is spelled like the other's address: they share a cache cell. Both are folded.
  predicate Collides(own: string, a: string, b: string) {
    a == own + "/" + b || b == own + "/" + a
  }

  lemma AddressParts(mod: string, key: string)
    ensures Address(mod, key) == Lower(mod) + "/" + Lower(key)
  {
    LowerConcat(mod + "/", key);
    LowerConcat(mod, "/");
    assert Lower("/") == "/";
  }

  lemma CellsOf(own: string, a: string, b: string)
    ensures own + "/" + a == own + "/" + b <==> a == b
  {
    if own + "/" + a == own + "/" + b {
      assert (own + "/" + a)[|own| + 1..] == a && (own + "/" + b)[|own| + 1..] == b;
    }
  }

  // Publishing another key of the own mod leaves an entry in place exactly when the two share no cell, or the
  // value is the same: an entry is cached under its bare key and under its address, and either may be the
  // other key's.
  lemma EntrySurvivesExactlyWhen(view: string, d: Doc, mod: string, key: string, value: string, e: Entry)
    requires SameFolded(mod, ModOf(view)) && Own(view) != "" && !SameFolded(key, e.key) && Holds(view, d.cache, e)
    ensures Holds(view, Receive(view, d, mod, key, value).cache, e) <==> value == e.value || !Collides(Own(view), Lower(key), Lower(e.key))
  {
    hide Address, Lower;
    var own := Own(view);
    AddressParts(mod, key);
    AddressParts(ModOf(view), e.key);
    CellsOf(own, Lower(key), Lower(e.key));
  }

  // Both ways of sharing a cell happen: a key spelled like the entry's address, and a key whose address is
  // spelled like the entry's.
  lemma SharedCellsOverwrite(view: string, d: Doc, mod: string, value: string, e: Entry)
    requires SameFolded(mod, ModOf(view)) && Own(view) != "" && Holds(view, d.cache, e) && value != e.value
    ensures !Holds(view, Receive(view, d, mod, mod + "/" + e.key, value).cache, e)
    ensures forall key | e.key == mod + "/" + key :: !Holds(view, Receive(view, d, mod, key, value).cache, e)
  {
    hide Address, Lower, Holds, DeliverState;
    var longer := mod + "/" + e.key;
    AddressParts(mod, e.key);
    assert |Lower(longer)| == |longer| > |e.key| == |Lower(e.key)|;
    EntrySurvivesExactlyWhen(view, d, mod, longer, value, e);
    forall key | e.key == mod + "/" + key ensures !Holds(view, Receive(view, d, mod, key, value).cache, e) {
      AddressParts(mod, key);
      assert |Lower(e.key)| == |e.key| > |key| == |Lower(key)|;
      EntrySurvivesExactlyWhen(view, d, mod, key, value, e);
    }
  }

  // The platform's view list leaves an entry in place exactly when the entry's key is not spelled like the
  // list's address, or the list is its value.
  lemma EntrySurvivesTheListExactlyWhen(view: string, d: Doc, list: string, e: Entry)
    requires ModAllowed(ModOf(view)) && Holds(view, d.cache, e)
    ensures Holds(view, ReceiveList(view, d, list).cache, e) <==> Lower(e.key) != PLATFORM_VIEWS || list == e.value
  {
    hide Address, Lower;
    ListCell(view, d.cache, list);
    AddressParts(ModOf(view), e.key);
    NoListAddress(view, Lower(e.key));
  }

  lemma ListCell(view: string, cache: Cache, list: string)
    requires ModAllowed(ModOf(view))
    ensures DeliverState(cache, Own(view), "osfui", "views", list) == cache[PLATFORM_VIEWS := list]
  {
    hide Address;
    AddressParts("osfui", "views");
    assert Lower("osfui") == "osfui" && Lower("views") == "views" && "osfui" + "/" + "views" == PLATFORM_VIEWS;
  }

  // No address of an allowed mod is the list's.
  lemma NoListAddress(view: string, k: string)
    requires ModAllowed(ModOf(view))
    ensures Own(view) + "/" + k != PLATFORM_VIEWS
  {
    hide Lower;
    if Own(view) + "/" + k == PLATFORM_VIEWS {
      assert PLATFORM_VIEWS == "osfui" + "/" + "views";
      LowerKeepsSlash(ModOf(view));
      SplitsAtSlash(Own(view), k, "osfui", "views");
    }
  }

  // ---- what a document holds, from what it was sent --------------------------------------------------------

  predicate Touches(own: string, w: Write, cell: string) {
    match w
    case Put(key, _) => cell == own + "/" + key || cell == key
    case Listed(_) => cell == PLATFORM_VIEWS
  }

  function ValueOf(w: Write): string {
    if w.Put? then w.value else w.list
  }

  // The last value written to a cell.
  function LastOn(own: string, writes: seq<Write>, cell: string): Option<string>
    decreases |writes|
  {
    if writes == [] then None
    else if Touches(own, writes[|writes| - 1], cell) then Some(ValueOf(writes[|writes| - 1]))
    else LastOn(own, writes[..|writes| - 1], cell)
  }

  // The last value written under a key itself.
  function LastPut(writes: seq<Write>, k: string): Option<string>
    decreases |writes|
  {
    if writes == [] then None else
    var last := writes[|writes| - 1];
    if last.Put? && last.key == k then Some(last.value) else LastPut(writes[..|writes| - 1], k)
  }

  // What was written after that.
  function Since(writes: seq<Write>, k: string): seq<Write>
    decreases |writes|
  {
    if writes == [] then [] else
    var last := writes[|writes| - 1];
    if last.Put? && last.key == k then [] else Since(writes[..|writes| - 1], k) + [last]
  }

  // What was written to a cell of this key since, if anything, is this value.
  predicate Undisturbed(own: string, writes: seq<Write>, k: string, cell: string, value: string) {
    LastOn(own, Since(writes, k), cell) in {None, Some(value)}
  }

  // Every write of a document's life is in its cache: each cell holds the last one.
  ghost predicate Reflects(own: string, cache: Cache, writes: seq<Write>) {
    forall cell :: (if cell in cache then Some(cache[cell]) else None) == LastOn(own, writes, cell)
  }

  // A document of this view that has said hello was last sent, under each retained key, the retained value.
  ghost predicate DocOk(view: string, d: Doc, entries: seq<Entry>) {
    && ModAllowed(ModOf(view)) && (d.said ==> d.greeted) && Reflects(Own(view), d.cache, d.writes)
    && (d.said ==> forall e | e in entries :: LastPut(d.writes, Lower(e.key)) == Some(e.value))
  }

  ghost predicate Inv(w: World) {
    StoreOk(w.store) && forall v | v in w.docs :: DocOk(v, w.docs[v], Bucket(w.store, ModOf(v)))
  }

  lemma LastOnAppend(own: string, writes: seq<Write>, w: Write, cell: string)
    ensures LastOn(own, writes + [w], cell) == if Touches(own, w, cell) then Some(ValueOf(w)) else LastOn(own, writes, cell)
  {
    assert (writes + [w])[..|writes|] == writes;
  }

  lemma LastPutAppend(writes: seq<Write>, w: Write, k: string)
    ensures LastPut(writes + [w], k) == if w.Put? && w.key == k then Some(w.value) else LastPut(writes, k)
  {
    assert (writes + [w])[..|writes|] == writes;
  }

  lemma ReceiveReflects(view: string, d: Doc, mod: string, key: string, value: string)
    requires ModAllowed(ModOf(view)) && SameFolded(mod, ModOf(view)) && Reflects(Own(view), d.cache, d.writes)
    ensures var r := Receive(view, d, mod, key, value); Reflects(Own(view), r.cache, r.writes)
  {
    hide Address, Lower, LastOn;
    var r, own := Receive(view, d, mod, key, value), Own(view);
    AddressParts(mod, key);
    assert own != "" by { assert |Lower(ModOf(view))| == |ModOf(view)|; }
    forall cell ensures (if cell in r.cache then Some(r.cache[cell]) else None) == LastOn(own, r.writes, cell) {
      LastOnAppend(own, d.writes, Put(Lower(key), value), cell);
    }
  }

  lemma ReceiveListReflects(view: string, d: Doc, list: string)
    requires ModAllowed(ModOf(view)) && Reflects(Own(view), d.cache, d.writes)
    ensures var r := ReceiveList(view, d, list); Reflects(Own(view), r.cache, r.writes)
  {
    hide DeliverState, Lower, LastOn;
    var r, own := ReceiveList(view, d, list), Own(view);
    ListCell(view, d.cache, list);
    forall cell ensures (if cell in r.cache then Some(r.cache[cell]) else None) == LastOn(own, r.writes, cell) {
      LastOnAppend(own, d.writes, Listed(list), cell);
    }
  }

  // A replay sends every entry of the mod.
  lemma {:induction false} ReplaySends(view: string, d: Doc, entries: seq<Entry>)
    requires ModAllowed(ModOf(view)) && DistinctKeys(entries) && Reflects(Own(view), d.cache, d.writes)
    ensures var r := Replay(view, d, entries);
            && r == d.(cache := r.cache, writes := r.writes) && Reflects(Own(view), r.cache, r.writes)
            && forall e | e in entries :: LastPut(r.writes, Lower(e.key)) == Some(e.value)
    decreases |entries|
  {
    hide Lower, Reflects, LastPut, DeliverState, ModAllowed;
    if entries != [] {
      var front, last := entries[..|entries| - 1], entries[|entries| - 1];
      ReplaySends(view, d, front);
      var before := Replay(view, d, front);
      ReceiveReflects(view, before, ModOf(view), last.key, last.value);
      forall e | e in entries ensures LastPut(Replay(view, d, entries).writes, Lower(e.key)) == Some(e.value) {
        var i :| 0 <= i < |entries| && entries[i] == e;
        LastPutAppend(before.writes, Put(Lower(last.key), last.value), Lower(e.key));
        if i < |entries| - 1 { assert front[i] == e && !SameFolded(e.key, last.key); }
      }
    }
  }

  // After Set an entry is the one written, or an old one under another key.
  lemma EntryAfterSet(s: Store, mod: string, key: string, value: string, sessionScoped: bool, i: nat)
    requires StoreOk(s) && mod != "" && i < |Bucket(Set(s, mod, key, value, sessionScoped), mod)|
    ensures var e := Bucket(Set(s, mod, key, value, sessionScoped), mod)[i];
            e == Entry(key, value, sessionScoped) || (e in Bucket(s, mod) && !SameFolded(key, e.key))
  {
    hide DistinctKeys;
    var before := Bucket(s, mod);
    SetKeepsStore(s, mod, key, value, sessionScoped);
    if Retains(s, mod, key) {
      EmptyIsOk();
      SetKeepsEntries(before, key, value, sessionScoped);
    } else {
      assert before[i] in before && Named(before);
    }
  }

  // ---- every action keeps it ------------------------------------------------------------------------------

  lemma PublishKeeps(w: World, mod: string, key: string, value: string, sessionScoped: bool, v: string)
    requires Inv(w) && ModAllowed(mod) && v in w.docs
    ensures DocOk(v, Published(w.docs, mod, key, value)[v], Bucket(Set(w.store, mod, key, value, sessionScoped), ModOf(v)))
  {
    hide Reflects, DeliverState, Set, LastPut, StoreOk, Lower;
    var store, d := Set(w.store, mod, key, value, sessionScoped), w.docs[v];
    SetKeepsStore(w.store, mod, key, value, sessionScoped);
    assert DocOk(v, d, Bucket(w.store, ModOf(v)));
    if SameFolded(ModOf(v), mod) {
      ReceiveReflects(v, d, mod, key, value);
      assert mod != "";
      forall e | e in Bucket(store, ModOf(v)) && d.said ensures LastPut(d.writes + [Put(Lower(key), value)], Lower(e.key)) == Some(e.value) {
        var i :| 0 <= i < |Bucket(store, ModOf(v))| && Bucket(store, ModOf(v))[i] == e;
        EntryAfterSet(w.store, mod, key, value, sessionScoped, i);
        LastPutAppend(d.writes, Put(Lower(key), value), Lower(e.key));
      }
    }
  }

  lemma PublishAll(w: World, mod: string, key: string, value: string, sessionScoped: bool, list: string)
    requires Inv(w) && Enabled(w, Publish(mod, key, value, sessionScoped))
    ensures Inv(Next(w, Publish(mod, key, value, sessionScoped), list))
  {
    hide DocOk, Set, StoreOk;
    SetStaysOk(w.store, mod, key, value, sessionScoped);
    var t := Next(w, Publish(mod, key, value, sessionScoped), list);
    forall v | v in t.docs ensures DocOk(v, t.docs[v], Bucket(t.store, ModOf(v))) {
      PublishKeeps(w, mod, key, value, sessionScoped, v);
    }
  }

  lemma SetStaysOk(s: Store, mod: string, key: string, value: string, sessionScoped: bool)
    requires StoreOk(s)
    ensures StoreOk(Set(s, mod, key, value, sessionScoped))
  {
    SetKeepsStore(s, mod, key, value, sessionScoped);
  }

  lemma ResetKeeps(w: World)
    requires Inv(w)
    ensures Inv(w.(store := ClearSessionScoped(w.store)))
  {
    hide Reflects, DistinctKeys, LastPut;
    var t := ClearSessionScoped(w.store);
    ClearKeepsStore(w.store);
    forall v | v in w.docs ensures DocOk(v, w.docs[v], Bucket(t, ModOf(v))) {
      assert DocOk(v, w.docs[v], Bucket(w.store, ModOf(v)));
    }
  }

  lemma HelloKeeps(w: World, view: string, list: string)
    requires Inv(w) && view in w.docs
    ensures Inv(World(w.store, w.docs[view := Greeted(w, view, list)]))
  {
    hide Reflects, LastPut, Lower, DeliverState;
    var d, entries := w.docs[view].(greeted := true, said := true), Bucket(w.store, ModOf(view));
    assert DocOk(view, w.docs[view], entries);
    ReceiveListReflects(view, d, list);
    ReplaySends(view, ReceiveList(view, d, list), entries);
  }

  lemma PublishViewsKeeps(w: World, newList: string, list: string)
    requires Inv(w)
    ensures Inv(Next(w, PublishViews(newList), list))
  {
    hide Reflects, LastPut, Lower, DeliverState, StoreOk;
    var t := Next(w, PublishViews(newList), list);
    forall v | v in t.docs ensures DocOk(v, t.docs[v], Bucket(t.store, ModOf(v))) {
      var d := w.docs[v];
      assert DocOk(v, d, Bucket(w.store, ModOf(v)));
      ReceiveListReflects(v, d, newList);
      forall e | e in Bucket(w.store, ModOf(v)) { LastPutAppend(d.writes, Listed(newList), Lower(e.key)); }
    }
  }

  lemma NextKeeps(w: World, a: Action, list: string)
    requires Inv(w) && Enabled(w, a)
    ensures Inv(Next(w, a, list))
  {
    hide StoreOk, LastPut;
    match a
    case Publish(mod, key, value, sessionScoped) => PublishAll(w, mod, key, value, sessionScoped, list);
    case SessionReset => ResetKeeps(w);
    case Hello(view) => HelloKeeps(w, view, list);
    case PublishViews(newList) => PublishViewsKeeps(w, newList, list);
    case _ =>
  }

  predicate Leads(w: World, a: Action, list: string, v: World) {
    Enabled(w, a) && v == Next(w, a, list)
  }

  // `lists` gives the platform's view list current at each step.
  predicate Execution(worlds: seq<World>, actions: seq<Action>, lists: seq<string>) {
    && |worlds| == |actions| + 1 && |lists| == |actions| && worlds[0] == World(map[], map[])
    && forall i | 0 <= i < |actions| :: Leads(worlds[i], actions[i], lists[i], worlds[i + 1])
  }

  lemma {:induction false} ExecutionKeeps(worlds: seq<World>, actions: seq<Action>, lists: seq<string>, n: nat)
    requires Execution(worlds, actions, lists) && n <= |actions|
    ensures Inv(worlds[n])
  {
    if n > 0 {
      hide Inv;
      ExecutionKeeps(worlds, actions, lists, n - 1);
      assert Leads(worlds[n - 1], actions[n - 1], lists[n - 1], worlds[n]);
      NextKeeps(worlds[n - 1], actions[n - 1], lists[n - 1]);
    }
  }

  // ---- the results -------------------------------------------------------------------------------------------

  // The last write to a cell of a key is the key's own, or a later intruder's.
  lemma {:induction false} LastOnSince(own: string, writes: seq<Write>, k: string, cell: string)
    requires LastPut(writes, k).Some? && (cell == own + "/" + k || cell == k)
    ensures LastOn(own, writes, cell) ==
            if LastOn(own, Since(writes, k), cell).Some? then LastOn(own, Since(writes, k), cell) else LastPut(writes, k)
    decreases |writes|
  {
    var front, last := writes[..|writes| - 1], writes[|writes| - 1];
    if !(last.Put? && last.key == k) {
      LastOnSince(own, front, k, cell);
      LastOnAppend(own, Since(front, k), last, cell);
    }
  }

  // In every reachable state a document that has said hello holds an entry retained for its mod, under its
  // address and under its own name, if and only if what else it was sent on those two cells since that entry,
  // if anything, ended with the same value.
  lemma EntryHeldExactlyWhen(worlds: seq<World>, actions: seq<Action>, lists: seq<string>, n: nat, view: string, e: Entry)
    requires Execution(worlds, actions, lists) && n <= |actions|
    requires view in worlds[n].docs && worlds[n].docs[view].said && e in Bucket(worlds[n].store, ModOf(view))
    ensures var d, own, k := worlds[n].docs[view], Own(view), Lower(e.key);
            Holds(view, d.cache, e) <==> Undisturbed(own, d.writes, k, own + "/" + k, e.value) && Undisturbed(own, d.writes, k, k, e.value)
  {
    hide Lower, Address, LastOn, LastPut, Since, StoreOk;
    ExecutionKeeps(worlds, actions, lists, n);
    var d, own, k := worlds[n].docs[view], Own(view), Lower(e.key);
    assert DocOk(view, d, Bucket(worlds[n].store, ModOf(view)));
    AddressParts(ModOf(view), e.key);
    LastOnSince(own, d.writes, k, own + "/" + k);
    LastOnSince(own, d.writes, k, k);
  }

  // So it holds the store's latest value as long as the key is not spelled like the view list's address and no
  // key sharing one of its cells was sent to the document since.
  lemma RetainedStateIsCoherent(worlds: seq<World>, actions: seq<Action>, lists: seq<string>, n: nat, view: string, e: Entry)
    requires Execution(worlds, actions, lists) && n <= |actions|
    requires view in worlds[n].docs && worlds[n].docs[view].said && e in Bucket(worlds[n].store, ModOf(view))
    requires Lower(e.key) != PLATFORM_VIEWS
    requires forall w | w in Since(worlds[n].docs[view].writes, Lower(e.key)) && w.Put? :: !Collides(Own(view), w.key, Lower(e.key))
    ensures Holds(view, worlds[n].docs[view].cache, e)
  {
    hide Holds, Lower, Since, LastOn;
    var d, own, k := worlds[n].docs[view], Own(view), Lower(e.key);
    ExecutionKeeps(worlds, actions, lists, n);
    assert DocOk(view, d, Bucket(worlds[n].store, ModOf(view)));
    EntryHeldExactlyWhen(worlds, actions, lists, n, view, e);
    NoListAddress(view, k);
    SinceHasOthers(d.writes, k);
    forall w | w in Since(d.writes, k) ensures !Touches(own, w, own + "/" + k) && !Touches(own, w, k) {
      if w.Put? { CellsOf(own, w.key, k); }
    }
    NothingTouches(own, Since(d.writes, k), own + "/" + k);
    NothingTouches(own, Since(d.writes, k), k);
  }

  lemma {:induction false} SinceHasOthers(writes: seq<Write>, k: string)
    ensures forall w | w in Since(writes, k) && w.Put? :: w.key != k
    decreases |writes|
  {
    if writes != [] { SinceHasOthers(writes[..|writes| - 1], k); }
  }

  lemma {:induction false} NothingTouches(own: string, writes: seq<Write>, cell: string)
    requires forall w | w in writes :: !Touches(own, w, cell)
    ensures LastOn(own, writes, cell) == None
    decreases |writes|
  {
    if writes != [] {
      assert writes[|writes| - 1] in writes;
      NothingTouches(own, writes[..|writes| - 1], cell);
    }
  }

  // The list's address is a key a mod may publish, and then it fails: the page says hello, the key is published,
  // the list changes.
  lemma ListOverwritesItsKey(view: string, value: string, list: string)
    requires ModAllowed(ModOf(view)) && value != list
    ensures exists worlds: seq<World>, actions: seq<Action>, lists: seq<string> ::
              && Execution(worlds, actions, lists) && |actions| == 4
              && var w, e := worlds[4], Entry(PLATFORM_VIEWS, value, false);
                 && view in w.docs && w.docs[view].said && e in Bucket(w.store, ModOf(view)) && !Holds(view, w.docs[view].cache, e)
  {
    hide Next, Holds, StoreOk, Lower;
    var e := Entry(PLATFORM_VIEWS, value, false);
    var actions := [Navigate(view), Hello(view), Publish(ModOf(view), PLATFORM_VIEWS, value, false), PublishViews(list)];
    var w0 := World(map[], map[]);
    var w1 := World(map[], map[view := Doc(false, false, map[], [])]);
    var w2 := World(map[], map[view := ReceiveList(view, Doc(true, true, map[], []), "")]);
    var w3 := World(map[Lower(ModOf(view)) := [e]], map[view := Receive(view, w2.docs[view], ModOf(view), e.key, value)]);
    var w4 := World(w3.store, map[view := ReceiveList(view, w3.docs[view], list)]);
    var worlds, lists := [w0, w1, w2, w3, w4], ["", "", "", list];
    GreetedAlone(view);
    PublishedAlone(view, w2.docs[view], e);
    ListedAlone(view, w3, list);
    assert Leads(w0, actions[0], lists[0], w1) && Leads(w1, actions[1], lists[1], w2) && Leads(w2, actions[2], lists[2], w3) && Leads(w3, actions[3], lists[3], w4);
    ListedOver(view, w3.docs[view], list, e);
    assert Execution(worlds, actions, lists);
    assert e in Bucket(w4.store, ModOf(view));
  }

  lemma GreetedAlone(view: string)
    requires ModAllowed(ModOf(view))
    ensures var w := World(map[], map[view := Doc(false, false, map[], [])]);
            && Leads(World(map[], map[]), Navigate(view), "", w)
            && Leads(w, Hello(view), "", World(map[], map[view := ReceiveList(view, Doc(true, true, map[], []), "")]))
  {
    hide Lower, DeliverState;
  }

  lemma PublishedAlone(view: string, d: Doc, e: Entry)
    requires ModAllowed(ModOf(view)) && d.greeted && e.key != "" && !e.sessionScoped
    ensures var t := World(map[Lower(ModOf(view)) := [e]], map[view := Receive(view, d, ModOf(view), e.key, e.value)]);
            Leads(World(map[], map[view := d]), Publish(ModOf(view), e.key, e.value, false), "", t)
  {
    hide Lower, DeliverState;
    var s: Store := map[];
    assert Bucket(s, ModOf(view)) == [] && IndexOf([], e.key) == 0;
    assert e == Entry(e.key, e.value, false) && |s| < MAX_MODS && Retains(s, ModOf(view), e.key);
    assert SetEntries([], e.key, e.value, false) == [e];
    assert Set(map[], ModOf(view), e.key, e.value, false) == map[Lower(ModOf(view)) := [e]];
  }

  lemma ListedAlone(view: string, w: World, list: string)
    requires w.docs.Keys == {view} && w.docs[view].greeted
    ensures Leads(w, PublishViews(list), list, World(w.store, map[view := ReceiveList(view, w.docs[view], list)]))
  {
    hide DeliverState;
  }

  lemma ListedOver(view: string, d: Doc, list: string, e: Entry)
    requires ModAllowed(ModOf(view)) && e.key == PLATFORM_VIEWS && list != e.value
    ensures !Holds(view, ReceiveList(view, d, list).cache, e)
  {
    hide DeliverState, Address, Lower;
    ListCell(view, d.cache, list);
    LowerAlready(PLATFORM_VIEWS);
  }

  // The store stays within its bounds, with one entry per folded key, over every run.
  lemma {:induction false} StoreStaysOk(worlds: seq<World>, actions: seq<Action>, lists: seq<string>, n: nat)
    requires Execution(worlds, actions, lists) && n <= |actions|
    ensures StoreOk(worlds[n].store)
  {
    if n > 0 {
      hide StoreOk, Published, Greeted;
      StoreStaysOk(worlds, actions, lists, n - 1);
      assert Leads(worlds[n - 1], actions[n - 1], lists[n - 1], worlds[n]);
      var w := worlds[n - 1];
      match actions[n - 1]
      case Publish(mod, key, value, sessionScoped) => SetStaysOk(w.store, mod, key, value, sessionScoped);
      case SessionReset => ClearKeepsStore(w.store);
      case _ =>
    } else {
      assert worlds[0].store == map[];
    }
  }
}
